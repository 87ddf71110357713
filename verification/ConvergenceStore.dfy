/** Durable convergence runs: creation, compare-and-swap transitions, and identities that are bound once. */
module ConvergenceStore {
  import opened LogStore
  import opened Strings

  type RunId = string

  datatype Phase = Accepted | IndexRequested | AnalysisPending | CiRequested | CiRunning | PostCi | Passed | Failed | Blocked
  datatype Mode = Fast | Full
  datatype Stage = Index | ChangeContext | ChangeImpact | ContractDetection | AffectedTests
  datatype StageState = Pending | Ready | StageFailed | Degraded

  /** One row of the analysis table: state, resource and error columns. */
  datatype StageRow = StageRow(
    state: StageState, uri: Option<string>, identity: Option<string>, errorCode: Option<string>, errorMessage: Option<string>)

  datatype Identity = Identity(
    repository: string, branch: string, session: string, workspace: string, head: string, tree: string,
    baseBranch: string, base: string, mode: Mode, caller: string)

  datatype Event = Event(revision: nat, source: Option<Phase>, target: Phase)

  /** One row of development_convergences with its analysis and event rows; identity columns bind once. */
  datatype Run = Run(
    identity: Identity, key: string, phase: Phase, status: string, revision: nat, terminal: bool,
    indexJob: Option<string>, request: Option<string>, job: Option<string>,
    attestation: Option<string>, failurePack: Option<string>,
    errorCode: Option<string>, errorMessage: Option<string>,
    analysis: map<Stage, StageRow>, events: seq<Event>)

  type Runs = map<RunId, Run>

  const NEW_STAGE := StageRow(Pending, None, None, None, None)
  const NEW_ANALYSIS: map<Stage, StageRow> :=
    map[Index := NEW_STAGE, ChangeContext := NEW_STAGE, ChangeImpact := NEW_STAGE, ContractDetection := NEW_STAGE,
        AffectedTests := NEW_STAGE]

  predicate Ends(p: Phase) { p.Passed? || p.Failed? || p.Blocked? }

  /** _PHASE_RANK. */
  function Rank(p: Phase): nat {
    match p
    case Accepted => 0
    case IndexRequested => 1
    case AnalysisPending => 2
    case CiRequested => 3
    case CiRunning => 4
    case PostCi => 5
    case _ => 6
  }

  function Name(p: Phase): string {
    match p
    case Accepted => "accepted"
    case IndexRequested => "index_requested"
    case AnalysisPending => "analysis_pending"
    case CiRequested => "ci_requested"
    case CiRunning => "ci_running"
    case PostCi => "post_ci_finalize"
    case Passed => "passed"
    case Failed => "failed"
    case Blocked => "blocked"
  }

  /** Every update: the next revision and one event. */
  function Bumped(r: Run, target: Phase): Run {
    r.(revision := r.revision + 1, events := r.events + [Event(r.revision + 1, Some(r.phase), target)])
  }

  datatype Outcome =
    | Updated | Unchanged | NotFound | RevisionMismatch | StateInvalid | IdentityMismatch | IdempotencyConflict | InvalidRequest

  function Checked(runs: Runs, id: RunId, expected: int): Outcome {
    if id !in runs then NotFound else if runs[id].revision != expected then RevisionMismatch else Updated
  }

  // ---- create_or_get_convergence ----

  /** The columns of the unique index over non-terminal rows. */
  predicate SameActiveIdentity(a: Identity, b: Identity) {
    && a.repository == b.repository && a.session == b.session && a.head == b.head && a.tree == b.tree
    && a.mode == b.mode && a.baseBranch == b.baseBranch && a.base == b.base
  }

  predicate IsKeyed(runs: Runs, n: Identity, key: string, r: RunId) {
    r in runs && key != "" && runs[r].identity.repository == n.repository && runs[r].key == key
  }

  predicate IsActive(runs: Runs, n: Identity, r: RunId) {
    r in runs && !runs[r].terminal && SameActiveIdentity(runs[r].identity, n)
  }

  /** What the two lookups return. */
  ghost predicate Finds(runs: Runs, n: Identity, key: string, keyed: Option<RunId>, active: Option<RunId>) {
    && (if keyed.Some? then IsKeyed(runs, n, key, keyed.value) else forall r :: !IsKeyed(runs, n, key, r))
    && (if active.Some? then IsActive(runs, n, active.value) else forall r :: !IsActive(runs, n, r))
  }

  function NewRun(n: Identity, key: string): Run {
    Run(n, key, Accepted, "accepted", 0, false, None, None, None, None, None, None, None, NEW_ANALYSIS, [Event(0, None, Accepted)])
  }

  function CreateOutcome(runs: Runs, id: RunId, n: Identity, keyed: Option<RunId>, active: Option<RunId>): Outcome {
    if keyed.Some? && keyed.value in runs then if runs[keyed.value].identity != n then IdempotencyConflict else Unchanged
    else if active.Some? && active.value in runs then
      if runs[active.value].identity.branch != n.branch || runs[active.value].identity.workspace != n.workspace then IdentityMismatch
      else Unchanged
    else if id in runs then InvalidRequest
    else Updated
  }

  function Create(runs: Runs, id: RunId, n: Identity, key: string, keyed: Option<RunId>, active: Option<RunId>): Runs {
    if CreateOutcome(runs, id, n, keyed, active).Updated? then runs[id := NewRun(n, key)] else runs
  }

  // ---- transition_convergence ----

  function TransitionOutcome(runs: Runs, id: RunId, expected: int): Outcome {
    var c := Checked(runs, id, expected);
    if !c.Updated? then c else if id in runs && runs[id].terminal then StateInvalid else Updated
  }

  function Moved(r: Run, phase: Phase, status: string, code: Option<string>, message: Option<string>): Run {
    Bumped(r, phase).(phase := phase, status := if status == "" then Name(phase) else status, terminal := Ends(phase),
                      errorCode := code, errorMessage := message)
  }

  function Transition(runs: Runs, id: RunId, expected: int, phase: Phase, status: string,
                      code: Option<string>, message: Option<string>): Runs {
    if TransitionOutcome(runs, id, expected).Updated? && id in runs
    then runs[id := Moved(runs[id], phase, status, code, message)] else runs
  }

  // ---- _bind_once ----

  datatype Field = IndexJob | CiRequest | CiJob

  function Bound(r: Run, f: Field): Option<string> {
    match f
    case IndexJob => r.indexJob
    case CiRequest => r.request
    case CiJob => r.job
  }

  function WithBinding(r: Run, f: Field, v: string): Run {
    match f
    case IndexJob => r.(indexJob := Some(v))
    case CiRequest => r.(request := Some(v))
    case CiJob => r.(job := Some(v))
  }

  predicate Blank(s: string) { forall c :: c in s ==> IsSpace(c) }

  function BindOutcome(runs: Runs, id: RunId, expected: int, f: Field, v: string): Outcome {
    var c := Checked(runs, id, expected);
    if Blank(v) then InvalidRequest
    else if !c.Updated? || id !in runs then c
    else if runs[id].terminal then StateInvalid
    else if Bound(runs[id], f).Some? then if Bound(runs[id], f) == Some(v) then Unchanged else IdentityMismatch
    else Updated
  }

  function Bind(runs: Runs, id: RunId, expected: int, f: Field, v: string): Runs {
    if BindOutcome(runs, id, expected, f, v).Updated? && id in runs
    then runs[id := Bumped(WithBinding(runs[id], f, v), runs[id].phase)] else runs
  }

  // ---- record_analysis_state and record_terminal_evidence ----

  function RecordAnalysis(runs: Runs, id: RunId, expected: int, stage: Stage, row: StageRow): Runs {
    if TransitionOutcome(runs, id, expected).Updated? && id in runs
    then runs[id := Bumped(runs[id], runs[id].phase).(analysis := runs[id].analysis[stage := row])] else runs
  }

  /** A value may be added where there is none, never changed. */
  predicate Conflicts(current: Option<string>, v: Option<string>) { v.Some? && current.Some? && current != v }

  function Filled(current: Option<string>, v: Option<string>): Option<string> { if v.Some? then v else current }

  /** An empty string counts as no value. */
  function Value(s: string): Option<string> { if s == "" then None else Some(s) }

  function EvidenceOutcome(runs: Runs, id: RunId, expected: int, attestation: string, pack: string): Outcome {
    var c := Checked(runs, id, expected);
    if attestation == "" && pack == "" then InvalidRequest
    else if !c.Updated? || id !in runs then c
    else if Conflicts(runs[id].attestation, Value(attestation)) || Conflicts(runs[id].failurePack, Value(pack)) then IdentityMismatch
    else if Filled(runs[id].attestation, Value(attestation)) == runs[id].attestation
            && Filled(runs[id].failurePack, Value(pack)) == runs[id].failurePack then Unchanged
    else Updated
  }

  function RecordEvidence(runs: Runs, id: RunId, expected: int, attestation: string, pack: string): Runs {
    if EvidenceOutcome(runs, id, expected, attestation, pack).Updated? && id in runs
    then
      var r := runs[id];
      runs[id := Bumped(r, r.phase).(attestation := Filled(r.attestation, Value(attestation)),
                                     failurePack := Filled(r.failurePack, Value(pack)))]
    else runs
  }

  // ---- The store ----

  lemma AllPending()
    ensures forall t: Stage :: t in NEW_ANALYSIS && NEW_ANALYSIS[t] == StageRow(Pending, None, None, None, None)
  {
    forall t: Stage ensures t in NEW_ANALYSIS && NEW_ANALYSIS[t] == NEW_STAGE {
      match t
      case Index =>
      case ChangeContext =>
      case ChangeImpact =>
      case ContractDetection =>
      case AffectedTests =>
    }
  }

  class Store {
    var runs: Runs

    constructor ()
      ensures runs == map[]
    {
      runs := map[];
    }

    /** _require_revision. */
    method RequireRevision(id: RunId, expected: int) returns (outcome: Outcome)
      ensures outcome == Checked(runs, id, expected)
    {
      if id !in runs { return NotFound; }
      if runs[id].revision != expected { return RevisionMismatch; }
      outcome := Updated;
    }

    /** Write the row with the next revision and its event. */
    method Write(id: RunId, before: Run, after: Run)
      modifies this
      ensures runs == old(runs)[id := after.(revision := after.revision + 1,
                                             events := after.events + [Event(after.revision + 1, Some(before.phase), after.phase)])]
    {
      var event := Event(after.revision + 1, Some(before.phase), after.phase);
      runs := runs[id := after.(revision := after.revision + 1, events := after.events + [event])];
    }

    method CreateOrGet(id: RunId, n: Identity, key: string)
      returns (outcome: Outcome, run: RunId, ghost keyed: Option<RunId>, ghost active: Option<RunId>)
      modifies this
      ensures Finds(old(runs), n, key, keyed, active)
      ensures outcome == CreateOutcome(old(runs), id, n, keyed, active)
      ensures runs == Create(old(runs), id, n, key, keyed, active)
      ensures run == if keyed.Some? then keyed.value else if active.Some? then active.value else id
      ensures outcome.Updated? ==>
                && id !in old(runs) && id in runs
                && runs == old(runs)[id := Run(n, key, Accepted, "accepted", 0, false, None, None, None, None, None, None, None,
                                               runs[id].analysis, [Event(0, None, Accepted)])]
                && forall t: Stage :: t in runs[id].analysis && runs[id].analysis[t] == StageRow(Pending, None, None, None, None)
      ensures outcome.Updated? ==>
                forall r :: r in old(runs) ==>
                  && (key != "" && old(runs)[r].identity.repository == n.repository ==> old(runs)[r].key != key)
                  && (!old(runs)[r].terminal ==>
                      !(var a := old(runs)[r].identity;
                        a.repository == n.repository && a.session == n.session && a.head == n.head && a.tree == n.tree
                        && a.mode == n.mode && a.baseBranch == n.baseBranch && a.base == n.base))
      ensures outcome.Unchanged? ==>
                && run in old(runs)
                && var a := old(runs)[run].identity;
                   a == n || (!old(runs)[run].terminal && a.(caller := n.caller) == n)
      // each refusal says what was found
      ensures outcome.IdempotencyConflict? ==>
                && key != "" && run in old(runs) && old(runs)[run].key == key
                && old(runs)[run].identity.repository == n.repository && old(runs)[run].identity != n
      ensures outcome.IdentityMismatch? ==>
                && run in old(runs) && !old(runs)[run].terminal
                && var a := old(runs)[run].identity;
                   && a.repository == n.repository && a.session == n.session && a.head == n.head && a.tree == n.tree
                   && a.mode == n.mode && a.baseBranch == n.baseBranch && a.base == n.base
                   && (a.branch != n.branch || a.workspace != n.workspace)
      ensures outcome.InvalidRequest? ==> id in old(runs)
      ensures outcome in {Updated, Unchanged, IdempotencyConflict, IdentityMismatch, InvalidRequest}
      ensures !outcome.Updated? ==> runs == old(runs)
    {
      keyed, active := None, None;
      if r :| IsKeyed(runs, n, key, r) { keyed := Some(r); }
      if r :| IsActive(runs, n, r) { active := Some(r); }
      run := id;
      if key != "" {
        if r :| r in runs && runs[r].identity.repository == n.repository && runs[r].key == key {
          keyed, run := Some(r), r;
          outcome := if runs[r].identity != n then IdempotencyConflict else Unchanged;
          return;
        }
      }
      if r :| r in runs && !runs[r].terminal && SameActiveIdentity(runs[r].identity, n) {
        active, run := Some(r), r;
        var row := runs[r].identity;
        outcome := if row.branch != n.branch || row.workspace != n.workspace then IdentityMismatch else Unchanged;
        return;
      }
      if id in runs { return InvalidRequest, id, keyed, active; }
      runs := runs[id := NewRun(n, key)];
      AllPending();
      outcome := Updated;
    }

    method TransitionConvergence(id: RunId, expected: int, phase: Phase, status: string, code: Option<string>,
                                 message: Option<string>)
      returns (outcome: Outcome)
      modifies this
      ensures outcome == TransitionOutcome(old(runs), id, expected)
      ensures runs == Transition(old(runs), id, expected, phase, status, code, message)
      ensures outcome.Updated? <==> id in old(runs) && old(runs)[id].revision == expected && !old(runs)[id].terminal
      ensures outcome.Updated? ==>
                var r := old(runs)[id];
                runs == old(runs)[id := r.(
                  phase := phase, status := if status == "" then Name(phase) else status,
                  terminal := phase in {Passed, Failed, Blocked}, errorCode := code, errorMessage := message,
                  revision := expected + 1, events := r.events + [Event(expected + 1, Some(r.phase), phase)])]
      ensures !outcome.Updated? ==> runs == old(runs)
    {
      outcome := RequireRevision(id, expected);
      if !outcome.Updated? { return; }
      var row := runs[id];
      if row.terminal { return StateInvalid; }
      var target := if status == "" then Name(phase) else status;
      Write(id, row, row.(phase := phase, status := target, terminal := Ends(phase), errorCode := code, errorMessage := message));
    }

    method BindOnce(id: RunId, expected: int, f: Field, v: string) returns (outcome: Outcome)
      modifies this
      ensures outcome == BindOutcome(old(runs), id, expected, f, v) && runs == Bind(old(runs), id, expected, f, v)
      ensures outcome.Updated? ==>
                && id in old(runs) && old(runs)[id].revision == expected && !old(runs)[id].terminal && !Blank(v)
                && var r := old(runs)[id];
                   var bumped := r.(revision := expected + 1, events := r.events + [Event(expected + 1, Some(r.phase), r.phase)]);
                   match f
                   case IndexJob => r.indexJob.None? && runs == old(runs)[id := bumped.(indexJob := Some(v))]
                   case CiRequest => r.request.None? && runs == old(runs)[id := bumped.(request := Some(v))]
                   case CiJob => r.job.None? && runs == old(runs)[id := bumped.(job := Some(v))]
      ensures !outcome.Updated? ==> runs == old(runs)
    {
      if Blank(v) { return InvalidRequest; }
      outcome := RequireRevision(id, expected);
      if !outcome.Updated? { return; }
      var row := runs[id];
      if row.terminal { return StateInvalid; }
      var current := Bound(row, f);
      if current.Some? {
        outcome := if current.value == v then Unchanged else IdentityMismatch;
        return;
      }
      Write(id, row, WithBinding(row, f, v));
    }

    /** The job is bound only under the Request that was read first; both reads use the same revision. */
    method BindCiJob(id: RunId, expected: int, request: string, job: string) returns (outcome: Outcome)
      modifies this
      ensures var c := Checked(old(runs), id, expected);
              if c.Updated? && id in old(runs) && old(runs)[id].request != Some(request)
              then outcome == IdentityMismatch && runs == old(runs)
              else if !c.Updated? then outcome == c && runs == old(runs)
              else outcome == BindOutcome(old(runs), id, expected, CiJob, job) && runs == Bind(old(runs), id, expected, CiJob, job)
    {
      outcome := RequireRevision(id, expected);
      if !outcome.Updated? { return; }
      if runs[id].request != Some(request) { return IdentityMismatch; }
      outcome := BindOnce(id, expected, CiJob, job);
    }

    method RecordAnalysisState(id: RunId, expected: int, stage: Stage, row: StageRow) returns (outcome: Outcome)
      modifies this
      ensures outcome == TransitionOutcome(old(runs), id, expected) && runs == RecordAnalysis(old(runs), id, expected, stage, row)
      ensures outcome.Updated? <==> id in old(runs) && old(runs)[id].revision == expected && !old(runs)[id].terminal
      ensures outcome.Updated? ==>
                && id in runs && stage in runs[id].analysis && runs[id].analysis[stage] == row
                && (forall t :: t in old(runs)[id].analysis && t != stage ==>
                    t in runs[id].analysis && runs[id].analysis[t] == old(runs)[id].analysis[t])
                && var r := old(runs)[id];
                   runs == old(runs)[id := r.(
                     analysis := runs[id].analysis, revision := expected + 1,
                     events := r.events + [Event(expected + 1, Some(r.phase), r.phase)])]
      ensures !outcome.Updated? ==> runs == old(runs)
    {
      outcome := RequireRevision(id, expected);
      if !outcome.Updated? { return; }
      var run := runs[id];
      if run.terminal { return StateInvalid; }
      Write(id, run, run.(analysis := run.analysis[stage := row]));
    }

    method RecordTerminalEvidence(id: RunId, expected: int, attestation: string, pack: string) returns (outcome: Outcome)
      modifies this
      ensures outcome == EvidenceOutcome(old(runs), id, expected, attestation, pack)
      ensures runs == RecordEvidence(old(runs), id, expected, attestation, pack)
      ensures outcome.Updated? || outcome.Unchanged? ==>
                && id in old(runs) && id in runs && old(runs)[id].revision == expected
                && var r, r' := old(runs)[id], runs[id];
                   && r'.attestation == (if attestation != "" then Some(attestation) else r.attestation)
                   && r'.failurePack == (if pack != "" then Some(pack) else r.failurePack)
                   && (r.attestation.Some? && attestation != "" ==> r.attestation == Some(attestation))
                   && (r.failurePack.Some? && pack != "" ==> r.failurePack == Some(pack))
                   && (outcome.Unchanged? ==> r' == r)
                   && (outcome.Updated? ==>
                       r' == r.(attestation := r'.attestation, failurePack := r'.failurePack, revision := expected + 1,
                                events := r.events + [Event(expected + 1, Some(r.phase), r.phase)]))
      ensures !outcome.Updated? ==> runs == old(runs)
      ensures forall i :: i in old(runs) && i != id ==> i in runs && runs[i] == old(runs)[i]
    {
      if attestation == "" && pack == "" { return InvalidRequest; }
      outcome := RequireRevision(id, expected);
      if !outcome.Updated? { return; }
      var run := runs[id];
      var next := run;
      if attestation != "" {
        if run.attestation.Some? && run.attestation.value != attestation { return IdentityMismatch; }
        next := next.(attestation := Some(attestation));
      }
      if pack != "" {
        if run.failurePack.Some? && run.failurePack.value != pack { return IdentityMismatch; }
        next := next.(failurePack := Some(pack));
      }
      if next == run { return Unchanged; }
      Write(id, run, next);
    }
  }
}
