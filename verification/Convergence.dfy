/**
 Convergence driven by any number of concurrent callers. A caller acts on a snapshot it read at some
 time; the transition it asks for is computed from that snapshot and guarded only by its revision.
 */
module Convergence {
  import opened LogStore
  import opened ConvergenceStore

  // ---- _transition_if_needed ----

  function StatusOf(phase: Phase, status: string): string { if status == "" then Name(phase) else status }

  /** The phases of a live run, in order. */
  const PHASES := ["accepted", "index_requested", "analysis_pending", "ci_requested", "ci_running", "post_ci_finalize"]

  /** The rank of a phase is its place in that order, behind which all three ends share one rank. */
  lemma RankIsPlace(p: Phase)
    ensures if p in {Passed, Failed, Blocked} then Rank(p) == |PHASES| && Name(p) in {"passed", "failed", "blocked"}
            else Rank(p) < |PHASES| && PHASES[Rank(p)] == Name(p)
  {
  }

  predicate Changes(v: Option<string>, current: Option<string>) { v.Some? && v != current }

  predicate Needed(snapshot: Run, phase: Phase, status: string, code: Option<string>, message: Option<string>) {
    !snapshot.terminal
    && (Rank(phase) > Rank(snapshot.phase) || StatusOf(phase, status) != snapshot.status
        || Changes(code, snapshot.errorCode) || Changes(message, snapshot.errorMessage))
  }

  /** A transition never asks for a lower rank than the snapshot had. */
  function Target(snapshot: Run, phase: Phase): Phase {
    if Rank(phase) > Rank(snapshot.phase) then phase else snapshot.phase
  }

  /** One compare-and-swap attempt. */
  function Attempt(runs: Runs, id: RunId, snapshot: Run, phase: Phase, status: string,
                   code: Option<string>, message: Option<string>): Runs {
    if Needed(snapshot, phase, status, code, message)
    then Transition(runs, id, snapshot.revision, Target(snapshot, phase), StatusOf(phase, status), code, message)
    else runs
  }

  // ---- The system ----

  /** The table, and every row that any caller can still hold as a snapshot. */
  datatype System = System(runs: Runs, seen: set<(RunId, Run)>)

  const START := System(map[], {})

  datatype Action =
    | DoCreate(id: RunId, identity: Identity, key: string, keyed: Option<RunId>, active: Option<RunId>)
    | DoMove(id: RunId, snapshot: Run, phase: Phase, status: string, code: Option<string>, message: Option<string>)
    | DoBind(id: RunId, expected: int, field: Field, value: string)
    | DoBindJob(id: RunId, checked: Run, request: string, job: string)
    | DoAnalysis(id: RunId, expected: int, stage: Stage, row: StageRow)
    | DoEvidence(id: RunId, expected: int, attestation: string, pack: string)

  /**
   Snapshots were really read, however long ago. Only the finalizer asks for passed, and in full mode it
   does so with a snapshot that holds the attestation. Everything else is arbitrary.
   */
  ghost predicate Enabled(s: System, a: Action) {
    match a
    case DoCreate(id, n, key, keyed, active) => Finds(s.runs, n, key, keyed, active)
    case DoMove(id, snapshot, phase, _, _, _) =>
      (id, snapshot) in s.seen && (phase.Passed? && snapshot.identity.mode.Full? ==> snapshot.attestation.Some?)
    case DoBind(_, _, field, _) => !field.CiJob?
    case DoBindJob(id, checked, request, _) => (id, checked) in s.seen && checked.request == Some(request)
    case _ => true
  }

  function NextRuns(runs: Runs, a: Action): Runs {
    match a
    case DoCreate(id, n, key, keyed, active) => Create(runs, id, n, key, keyed, active)
    case DoMove(id, snapshot, phase, status, code, message) => Attempt(runs, id, snapshot, phase, status, code, message)
    case DoBind(id, expected, field, value) => Bind(runs, id, expected, field, value)
    case DoBindJob(id, checked, request, job) => Bind(runs, id, checked.revision, CiJob, job)
    case DoAnalysis(id, expected, stage, row) => RecordAnalysis(runs, id, expected, stage, row)
    case DoEvidence(id, expected, attestation, pack) => RecordEvidence(runs, id, expected, attestation, pack)
  }

  ghost function CurrentRows(runs: Runs): set<(RunId, Run)> { set i | i in runs :: (i, runs[i]) }

  ghost function Next(s: System, a: Action): System {
    var runs := NextRuns(s.runs, a);
    System(runs, s.seen + CurrentRows(runs))
  }

  // ---- What one row keeps ----

  ghost predicate EventOk(events: seq<Event>, k: nat)
    requires 0 < k < |events|
  {
    events[k].source == Some(events[k - 1].target) && Rank(events[k - 1].target) <= Rank(events[k].target)
    && (Ends(events[k - 1].target) ==> events[k].target == events[k - 1].target)
  }

  /** Events number 0..revision without a gap and replay to the phase; identities obey their order. */
  ghost predicate RunOk(r: Run) {
    && |r.events| == r.revision + 1
    && (forall k {:trigger r.events[k].revision} :: 0 <= k < |r.events| ==> r.events[k].revision == k)
    && r.events[0].source == None && r.events[0].target == Accepted
    && (forall k {:trigger EventOk(r.events, k)} :: 0 < k < |r.events| ==> EventOk(r.events, k))
    && r.events[r.revision].target == r.phase
    && RowOk(r)
  }

  ghost predicate Kept(a: Option<string>, b: Option<string>) { a.Some? ==> b == a }

  /** r may have been an earlier state of s: no lower revision or rank, no lost event, nothing rebound. */
  ghost predicate Earlier(r: Run, s: Run) {
    && r.identity == s.identity && r.key == s.key
    && r.revision <= s.revision && (r.revision == s.revision ==> r == s)
    && r.events <= s.events
    && Rank(r.phase) <= Rank(s.phase)
    && (r.terminal ==> s.terminal && s.phase == r.phase && s.status == r.status)
    && Kept(r.indexJob, s.indexJob) && Kept(r.request, s.request) && Kept(r.job, s.job)
    && Kept(r.attestation, s.attestation) && Kept(r.failurePack, s.failurePack)
  }

  /** A legal write of the current row. */
  ghost predicate Grows(r: Run, s: Run) {
    RunOk(s) && Earlier(r, s) && s.revision == r.revision + 1
  }

  lemma BumpKeepsEvents(r: Run, target: Phase)
    requires RunOk(r) && Rank(r.phase) <= Rank(target) && (Ends(r.phase) ==> target == r.phase)
    ensures var e := Bumped(r, target).events;
            && |e| == r.revision + 2 && e[r.revision + 1] == Event(r.revision + 1, Some(r.phase), target)
            && r.events <= e && e[0] == r.events[0]
            && (forall k {:trigger e[k].revision} :: 0 <= k < |e| ==> e[k].revision == k)
            && (forall k {:trigger EventOk(e, k)} :: 0 < k < |e| ==> EventOk(e, k))
  {
    var e := Bumped(r, target).events;
    forall k | 0 < k < |e| ensures EventOk(e, k) {
      if k <= r.revision { assert EventOk(r.events, k); }
    }
  }

  /** What the row itself must keep beside its events. */
  ghost predicate RowOk(r: Run) {
    && (r.terminal <==> Ends(r.phase))
    && (r.job.Some? ==> r.request.Some?)
    && (r.phase.Passed? && r.identity.mode.Full? ==> r.attestation.Some?)
  }

  lemma BumpGrows(r: Run, after: Run)
    requires RunOk(r) && RowOk(after) && after.revision == r.revision + 1 && after.events == Bumped(r, after.phase).events
    requires Rank(r.phase) <= Rank(after.phase) && (r.terminal ==> after.phase == r.phase && after.status == r.status)
    requires after.identity == r.identity && after.key == r.key
    requires Kept(r.indexJob, after.indexJob) && Kept(r.request, after.request) && Kept(r.job, after.job)
    requires Kept(r.attestation, after.attestation) && Kept(r.failurePack, after.failurePack)
    ensures Grows(r, after)
  {
    BumpKeepsEvents(r, after.phase);
  }

  // ---- What the system keeps ----

  /** Every snapshot is an earlier state of its row, the current rows are seen, and equal revisions are equal rows. */
  ghost predicate SeenOk(s: System) {
    && (forall i, r {:trigger (i, r) in s.seen} :: (i, r) in s.seen ==> i in s.runs && Earlier(r, s.runs[i]))
    && (forall i :: i in s.runs ==> (i, s.runs[i]) in s.seen)
    && (forall i, r, t {:trigger (i, r) in s.seen, (i, t) in s.seen} ::
          (i, r) in s.seen && (i, t) in s.seen && r.revision == t.revision ==> r == t)
  }

  ghost predicate RowsOk(s: System) { forall i :: i in s.runs ==> RunOk(s.runs[i]) }

  /** The two unique indexes: one active row per identity, one row per repository and key. */
  ghost predicate Unique(s: System) {
    forall i, k :: i in s.runs && k in s.runs && i != k ==>
      && (!s.runs[i].terminal && !s.runs[k].terminal ==> !SameActiveIdentity(s.runs[i].identity, s.runs[k].identity))
      && (s.runs[i].key != "" && s.runs[i].identity.repository == s.runs[k].identity.repository ==> s.runs[i].key != s.runs[k].key)
  }

  ghost predicate Inv(s: System) { SeenOk(s) && RowsOk(s) && Unique(s) }

  lemma EarlierIsTransitive(r: Run, s: Run, t: Run)
    requires Earlier(r, s) && Earlier(s, t)
    ensures Earlier(r, t)
  {
  }

  lemma SeenAfterWrite(s: System, id: RunId, after: Run, i: RunId, r: Run)
    requires forall k :: k in s.runs ==> (k, s.runs[k]) in s.seen
    ensures (i, r) in s.seen + CurrentRows(s.runs[id := after]) <==> (i, r) in s.seen || (i == id && r == after)
  {
    var runs := s.runs[id := after];
    assert (i, r) in CurrentRows(runs) <==> i in runs && runs[i] == r;
  }

  /** Writing a legal next row keeps every snapshot an earlier state of its row. */
  lemma WriteKeepsSeen(s: System, id: RunId, after: Run, s': System)
    requires SeenOk(s) && id in s.runs && Earlier(s.runs[id], after) && after.revision == s.runs[id].revision + 1
    requires s' == System(s.runs[id := after], s.seen + CurrentRows(s.runs[id := after]))
    ensures SeenOk(s')
  {
    hide CurrentRows;
    var before := s.runs[id];
    forall i, r ensures (i, r) in s'.seen <==> (i, r) in s.seen || (i == id && r == after) {
      SeenAfterWrite(s, id, after, i, r);
    }
    forall r | (id, r) in s.seen ensures r.revision <= before.revision && Earlier(r, after) {
      EarlierIsTransitive(r, before, after);
    }
    EarlierItself(after);
    hide Earlier;
  }

  lemma WriteKeepsInv(s: System, id: RunId, after: Run, s': System)
    requires Inv(s) && id in s.runs && Grows(s.runs[id], after)
    requires s' == System(s.runs[id := after], s.seen + CurrentRows(s.runs[id := after]))
    ensures Inv(s')
  {
    hide RunOk, SeenOk, CurrentRows;
    WriteKeepsSeen(s, id, after, s');
    assert (s.runs[id].terminal ==> after.terminal) && after.identity == s.runs[id].identity && after.key == s.runs[id].key;
    hide Earlier;
  }

  /** The heart of it: a transition that wins its compare-and-swap acts on the very row it was computed from. */
  lemma MoveGrows(s: System, a: Action)
    requires Inv(s) && a.DoMove? && Enabled(s, a) && NextRuns(s.runs, a) != s.runs
    ensures a.id in s.runs && s.runs[a.id] == a.snapshot
    ensures NextRuns(s.runs, a) == s.runs[a.id := NextRuns(s.runs, a)[a.id]]
    ensures a.id in NextRuns(s.runs, a) && Grows(s.runs[a.id], NextRuns(s.runs, a)[a.id])
  {
    hide Grows, EventOk, Unique;
    assert Earlier(a.snapshot, s.runs[a.id]);
    BumpGrows(s.runs[a.id], NextRuns(s.runs, a)[a.id]);
  }

  lemma BindingGrows(r: Run, f: Field, v: string)
    requires RunOk(r) && !r.terminal && Bound(r, f).None? && (f.CiJob? ==> r.request.Some?)
    ensures Grows(r, Bumped(WithBinding(r, f, v), r.phase))
  {
    hide Grows, EventOk;
    BumpGrows(r, Bumped(WithBinding(r, f, v), r.phase));
  }

  lemma BindGrows(s: System, a: Action)
    requires Inv(s) && (a.DoBind? || a.DoBindJob?) && Enabled(s, a) && NextRuns(s.runs, a) != s.runs
    ensures a.id in s.runs && a.id in NextRuns(s.runs, a)
    ensures NextRuns(s.runs, a) == s.runs[a.id := NextRuns(s.runs, a)[a.id]]
    ensures Grows(s.runs[a.id], NextRuns(s.runs, a)[a.id])
  {
    hide Grows, EventOk, RunOk, Unique, Blank, Bumped, WithBinding, Bound;
    var r := s.runs[a.id];
    if a.DoBindJob? {
      assert Earlier(a.checked, r);
      BindingGrows(r, CiJob, a.job);
    } else {
      BindingGrows(r, a.field, a.value);
    }
  }

  lemma RecordGrows(s: System, a: Action)
    requires Inv(s) && (a.DoAnalysis? || a.DoEvidence?) && NextRuns(s.runs, a) != s.runs
    ensures a.id in s.runs && a.id in NextRuns(s.runs, a)
    ensures NextRuns(s.runs, a) == s.runs[a.id := NextRuns(s.runs, a)[a.id]]
    ensures Grows(s.runs[a.id], NextRuns(s.runs, a)[a.id])
  {
    hide Grows, EventOk, Unique, SeenOk;
    var r := s.runs[a.id];
    assert RunOk(r);
    BumpGrows(r, NextRuns(s.runs, a)[a.id]);
  }

  lemma CreateKeepsInv(s: System, a: Action)
    requires Inv(s) && a.DoCreate? && Enabled(s, a)
    ensures Inv(Next(s, a))
  {
    hide SeenOk, RunOk, CurrentRows;
    var s' := Next(s, a);
    NewRunOk(a.identity, a.key);
    forall i | i in s.runs ensures !SameActiveIdentity(s.runs[i].identity, a.identity) || s.runs[i].terminal || s'.runs == s.runs {
      assert a.active.None? ==> !IsActive(s.runs, a.identity, i);
    }
    forall i | i in s.runs
      ensures a.key != "" && s.runs[i].identity.repository == a.identity.repository ==> s.runs[i].key != a.key || s'.runs == s.runs
    {
      assert a.keyed.None? ==> !IsKeyed(s.runs, a.identity, a.key, i);
    }
    if s'.runs == s.runs {
      NothingKeepsInv(s, a);
    } else {
      CreatedIsSeen(s, a.id, NewRun(a.identity, a.key));
    }
  }

  lemma CreatedIsSeen(s: System, id: RunId, run: Run)
    requires SeenOk(s) && id !in s.runs
    ensures SeenOk(System(s.runs[id := run], s.seen + CurrentRows(s.runs[id := run])))
  {
    hide CurrentRows, Earlier;
    EarlierItself(run);
    var s' := System(s.runs[id := run], s.seen + CurrentRows(s.runs[id := run]));
    forall i, r ensures (i, r) in s'.seen <==> (i, r) in s.seen || (i == id && r == run) {
      SeenAfterWrite(s, id, run, i, r);
    }
  }

  lemma EarlierItself(r: Run)
    ensures Earlier(r, r)
  {
  }

  lemma NewRunOk(n: Identity, key: string)
    ensures RunOk(NewRun(n, key))
  {
  }

  lemma NextKeepsInv(s: System, a: Action)
    requires Inv(s) && Enabled(s, a)
    ensures Inv(Next(s, a))
  {
    hide NextRuns, Inv, Enabled;
    if a.DoCreate? {
      CreateKeepsInv(s, a);
    } else if NextRuns(s.runs, a) == s.runs {
      NothingKeepsInv(s, a);
    } else {
      if a.DoMove? { MoveGrows(s, a); } else if a.DoBind? || a.DoBindJob? { BindGrows(s, a); } else { RecordGrows(s, a); }
      WriteKeepsInv(s, a.id, NextRuns(s.runs, a)[a.id], Next(s, a));
    }
  }

  lemma NothingKeepsInv(s: System, a: Action)
    requires Inv(s) && NextRuns(s.runs, a) == s.runs
    ensures Next(s, a) == s
  {
    hide NextRuns, Earlier, RunOk;
    assert CurrentRows(s.runs) <= s.seen;
    assert Next(s, a).seen == s.seen;
  }

  // ---- Whole runs ----

  ghost predicate CanRun(s: System, acts: seq<Action>)
    decreases |acts|
  {
    acts == [] || (Enabled(s, acts[0]) && CanRun(Next(s, acts[0]), acts[1..]))
  }

  ghost function After(s: System, acts: seq<Action>): System
    requires CanRun(s, acts)
    decreases |acts|
  {
    if acts == [] then s else After(Next(s, acts[0]), acts[1..])
  }

  /**
   In every reachable state, whatever stale snapshots the callers hold: events are gap-free and replay to
   the phase, a job id implies a Request id, a full pass has its attestation, equal revisions are equal
   rows, and at most one active run exists per identity.
   */
  lemma {:induction false} InvAlways(s: System, acts: seq<Action>)
    requires Inv(s) && CanRun(s, acts)
    ensures Inv(After(s, acts)) && s.seen <= After(s, acts).seen
    decreases |acts|
  {
    hide Inv, Enabled, NextRuns;
    if acts != [] {
      NextKeepsInv(s, acts[0]);
      InvAlways(Next(s, acts[0]), acts[1..]);
    }
  }

  lemma StartIsOk()
    ensures Inv(START)
  {
  }

  /**
   Convergence only goes forward: from any reachable state on, the rank of a run never falls, a terminal
   phase and status are permanent, every bound id is set at most once, and no revision or event is lost.
   */
  lemma RunsOnlyGrow(before: seq<Action>, after: seq<Action>, id: RunId)
    requires CanRun(START, before) && CanRun(After(START, before), after) && id in After(START, before).runs
    ensures var s, t := After(START, before), After(After(START, before), after);
            id in t.runs && Earlier(s.runs[id], t.runs[id])
  {
    hide Earlier, RowsOk, Unique;
    StartIsOk();
    InvAlways(START, before);
    var s := After(START, before);
    InvAlways(s, after);
    assert (id, s.runs[id]) in After(s, after).seen;
  }

  /** Two snapshots of a run with one revision are one and the same row, whoever read them and when. */
  lemma EqualRevisionIsEqualRow(acts: seq<Action>, id: RunId, a: Run, b: Run)
    requires CanRun(START, acts) && (id, a) in After(START, acts).seen && (id, b) in After(START, acts).seen
    requires a.revision == b.revision
    ensures a == b
  {
    hide Earlier, RowsOk, Unique;
    StartIsOk();
    InvAlways(START, acts);
  }

  // ---- The analysis rows ----

  /** The store accepts this record of a stage. */
  predicate Records(runs: Runs, a: Action, id: RunId, stage: Stage) {
    a.DoAnalysis? && a.id == id && a.stage == stage && id in runs && !runs[id].terminal && runs[id].revision == a.expected
  }

  /** The row of the last accepted record of a stage, or the row it had before. */
  ghost function LastRecord(s: System, acts: seq<Action>, id: RunId, stage: Stage, before: StageRow): StageRow
    decreases |acts|
  {
    if acts == [] then before
    else LastRecord(Next(s, acts[0]), acts[1..], id, stage, if Records(s.runs, acts[0], id, stage) then acts[0].row else before)
  }

  /** One step leaves the row of every stage as it is, or stores an accepted record of that very stage. */
  lemma StepRecords(s: System, a: Action, id: RunId, stage: Stage)
    requires id in s.runs && stage in s.runs[id].analysis
    ensures id in Next(s, a).runs && stage in Next(s, a).runs[id].analysis
    ensures Next(s, a).runs[id].analysis[stage] == if Records(s.runs, a, id, stage) then a.row else s.runs[id].analysis[stage]
  {
    hide CurrentRows, Blank, Needed, Target, StatusOf;
  }

  /** Over any run each stage holds the last record that was accepted for it. */
  lemma {:induction false} StageHoldsLastRecord(s: System, acts: seq<Action>, id: RunId, stage: Stage)
    requires id in s.runs && stage in s.runs[id].analysis && CanRun(s, acts)
    ensures id in After(s, acts).runs && stage in After(s, acts).runs[id].analysis
    ensures After(s, acts).runs[id].analysis[stage] == LastRecord(s, acts, id, stage, s.runs[id].analysis[stage])
    decreases |acts|
  {
    hide Next, Records, Enabled;
    if acts != [] {
      StepRecords(s, acts[0], id, stage);
      StageHoldsLastRecord(Next(s, acts[0]), acts[1..], id, stage);
    }
  }

  /** A run is created with every stage pending. */
  lemma CreatedIsPending(s: System, a: Action, stage: Stage)
    requires a.DoCreate? && a.id !in s.runs && a.id in Next(s, a).runs
    ensures var analysis := Next(s, a).runs[a.id].analysis;
            stage in analysis && analysis[stage] == StageRow(Pending, None, None, None, None)
  {
  }

  /** Recording one stage after the other as ready. */
  function ReadyRecords(runs: Runs, id: RunId, uri: string, stages: seq<Stage>): (after: Runs)
    requires id in runs
    ensures id in after
    decreases |stages|
  {
    if stages == [] then runs
    else
      var next := RecordAnalysis(runs, id, runs[id].revision, stages[0], StageRow(Ready, Some(uri), None, None, None));
      ReadyRecords(next, id, uri, stages[1..])
  }

  lemma {:induction false} RecordedStagesAreReady(runs: Runs, id: RunId, uri: string, stages: seq<Stage>)
    requires id in runs && !runs[id].terminal
    ensures var r, r' := runs[id], ReadyRecords(runs, id, uri, stages)[id];
            && r' == r.(analysis := r'.analysis, revision := r'.revision, events := r'.events)
            && r'.revision == r.revision + |stages|
            && forall t: Stage {:trigger t in r'.analysis} ::
               if t in stages then t in r'.analysis && r'.analysis[t].state == Ready
               else (t in r'.analysis <==> t in r.analysis) && (t in r.analysis ==> r'.analysis[t] == r.analysis[t])
    decreases |stages|
  {
    if stages != [] {
      var next := RecordAnalysis(runs, id, runs[id].revision, stages[0], StageRow(Ready, Some(uri), None, None, None));
      RecordedStagesAreReady(next, id, uri, stages[1..]);
      forall t: Stage ensures t in stages <==> t == stages[0] || t in stages[1..] {
      }
    }
  }

  /** From any live run, recording the five stages as ready makes the whole analysis ready. */
  lemma FiveRecordsMakeReady(runs: Runs, id: RunId, uri: string)
    requires id in runs && !runs[id].terminal
    ensures var r' := ReadyRecords(runs, id, uri, [Index, ChangeContext, ChangeImpact, ContractDetection, AffectedTests])[id];
            forall t: Stage :: t in r'.analysis && r'.analysis[t].state == Ready
  {
    var stages := [Index, ChangeContext, ChangeImpact, ContractDetection, AffectedTests];
    RecordedStagesAreReady(runs, id, uri, stages);
    forall t: Stage ensures t in stages {
      match t
      case Index => assert stages[0] == t;
      case ChangeContext => assert stages[1] == t;
      case ChangeImpact => assert stages[2] == t;
      case ContractDetection => assert stages[3] == t;
      case AffectedTests => assert stages[4] == t;
    }
  }
}
