/**
 A caller of the convergence store and all the others, taking turns. Whatever the others do is a sequence of
 enabled steps of the shared system, so what holds in every run of the system holds with them.
 */
module CallerTurns {
  import opened LogStore
  import opened ConvergenceStore
  import opened Convergence

  // ---- Drivers and other callers take turns ----

  /** One step of the system, taken by the driver itself or by another caller. */
  datatype Turn = Mine(act: Action) | Theirs(act: Action)

  function Acts(turns: seq<Turn>): seq<Action> { seq(|turns|, k requires 0 <= k < |turns| => turns[k].act) }

  predicate AllTheirs(turns: seq<Turn>) { forall k :: 0 <= k < |turns| ==> turns[k].Theirs? }

  predicate PassMove(turn: Turn) { turn.Mine? && turn.act.DoMove? && turn.act.phase.Passed? }

  /** Some step of the driver's own asks for passed. */
  predicate AsksToPass(turns: seq<Turn>) { exists k :: 0 <= k < |turns| && PassMove(turns[k]) }

  lemma AsksInEither(first: seq<Turn>, second: seq<Turn>)
    ensures AsksToPass(first + second) <==> AsksToPass(first) || AsksToPass(second)
  {
    hide PassMove;
    if k :| 0 <= k < |second| && PassMove(second[k]) { assert (first + second)[|first| + k] == second[k]; }
    if k :| 0 <= k < |first| && PassMove(first[k]) { assert (first + second)[k] == first[k]; }
  }

  lemma TheirsDoNotAsk(turns: seq<Turn>)
    requires AllTheirs(turns)
    ensures !AsksToPass(turns)
  {
  }

  lemma NoTurns()
    ensures !AsksToPass([])
  {
  }

  predicate SameRow(runs: Runs, a: Action, id: RunId) {
    id in runs && id in NextRuns(runs, a) && NextRuns(runs, a)[id] == runs[id]
  }

  /** No other caller changed the row of `id`. */
  ghost predicate Undisturbed(s: System, turns: seq<Turn>, id: RunId)
    decreases |turns|
  {
    turns == [] || ((turns[0].Theirs? ==> SameRow(s.runs, turns[0].act, id)) && Undisturbed(Next(s, turns[0].act), turns[1..], id))
  }

  /** What a driver starts from: the store is the system's table and the snapshot was read at some time. */
  ghost predicate Knows(s: System, runs: Runs, id: RunId, snapshot: Run) {
    Inv(s) && s.runs == runs && (id, snapshot) in s.seen
  }

  /** `turns` are enabled steps from s to t, after which the driver knows `row`. */
  ghost predicate Follows(s: System, turns: seq<Turn>, t: System, runs: Runs, id: RunId, row: Run) {
    CanRun(s, Acts(turns)) && After(s, Acts(turns)) == t && Knows(t, runs, id, row) && s.seen <= t.seen
  }

  /** The turns lead from s to t. */
  ghost predicate Reaches(s: System, turns: seq<Turn>, t: System) { CanRun(s, Acts(turns)) && After(s, Acts(turns)) == t }

  lemma KnowsTheRow(s: System, runs: Runs, id: RunId, snapshot: Run)
    requires Knows(s, runs, id, snapshot)
    ensures id in runs && Earlier(snapshot, runs[id]) && Knows(s, runs, id, runs[id]) && RowOk(runs[id])
    ensures snapshot.identity == runs[id].identity && (snapshot.revision == runs[id].revision <==> snapshot == runs[id])
  {
    hide EventOk, Unique;
    assert RunOk(runs[id]);
  }

  lemma Known(s: System, turns: seq<Turn>, t: System, runs: Runs, id: RunId, row: Run)
    requires Follows(s, turns, t, runs, id, row)
    ensures Knows(t, runs, id, row) && t.runs == runs && s.seen <= t.seen
  {
    hide Inv, After, CanRun;
  }

  lemma StillKnows(s: System, turns: seq<Turn>, t: System, runs: Runs, id: RunId, row: Run, snapshot: Run)
    requires Follows(s, turns, t, runs, id, row) && (id, snapshot) in s.seen
    ensures Follows(s, turns, t, runs, id, snapshot)
  {
    hide Inv, After, CanRun;
  }

  lemma NoStep(s: System, runs: Runs, id: RunId, row: Run)
    requires Knows(s, runs, id, row)
    ensures Follows(s, [], s, runs, id, row) && Undisturbed(s, [], id)
  {
    assert Acts([]) == [];
  }

  lemma OneStep(s: System, runs: Runs, id: RunId, snapshot: Run, turn: Turn)
    requires Knows(s, runs, id, snapshot) && Enabled(s, turn.act)
    ensures var t, runs' := Next(s, turn.act), NextRuns(runs, turn.act);
            && id in runs' && Follows(s, [turn], t, runs', id, snapshot) && Follows(s, [turn], t, runs', id, runs'[id])
            && (turn.Mine? ==> Undisturbed(s, [turn], id))
  {
    hide Inv, Enabled, NextRuns, CurrentRows;
    var a := turn.act;
    NextKeepsInv(s, a);
    assert Acts([turn]) == [a] && [a][1..] == [] && [turn][1..] == [];
    assert CanRun(Next(s, a), []) && After(Next(s, a), []) == Next(s, a);
    KnowsTheRow(Next(s, a), NextRuns(runs, a), id, snapshot);
  }

  lemma {:induction false} RunsJoin(s: System, first: seq<Action>, second: seq<Action>)
    requires CanRun(s, first) && CanRun(After(s, first), second)
    ensures CanRun(s, first + second) && After(s, first + second) == After(After(s, first), second)
    decreases |first|
  {
    hide Enabled, Next;
    if first == [] {
      assert first + second == second;
    } else {
      assert (first + second)[0] == first[0] && (first + second)[1..] == first[1..] + second;
      RunsJoin(Next(s, first[0]), first[1..], second);
    }
  }

  lemma {:induction false} UndisturbedJoin(s: System, first: seq<Turn>, second: seq<Turn>, id: RunId)
    requires CanRun(s, Acts(first))
    ensures Undisturbed(s, first + second, id) <==> Undisturbed(s, first, id) && Undisturbed(After(s, Acts(first)), second, id)
    decreases |first|
  {
    hide Enabled, Next, SameRow;
    if first == [] {
      assert first + second == second && Acts(first) == [];
    } else {
      assert (first + second)[0] == first[0] && (first + second)[1..] == first[1..] + second;
      assert Acts(first)[1..] == Acts(first[1..]) && Acts(first)[0] == first[0].act;
      UndisturbedJoin(Next(s, first[0].act), first[1..], second, id);
    }
  }

  lemma Joined(s: System, first: seq<Turn>, t: System, second: seq<Turn>, u: System, was: Runs, before: Run, runs: Runs,
               id: RunId, row: Run)
    requires Follows(s, first, t, was, id, before) && Follows(t, second, u, runs, id, row)
    ensures Follows(s, first + second, u, runs, id, row)
    ensures Undisturbed(s, first + second, id) <==> Undisturbed(s, first, id) && Undisturbed(t, second, id)
    ensures AsksToPass(first + second) <==> AsksToPass(first) || AsksToPass(second)
  {
    hide Inv, Undisturbed;
    AsksInEither(first, second);
    assert Acts(first + second) == Acts(first) + Acts(second);
    RunsJoin(s, Acts(first), Acts(second));
    UndisturbedJoin(s, first, second, id);
  }

  /** A row once changed never comes back: its revision has grown. */
  lemma {:induction false} TheirsChangeIff(s: System, turns: seq<Turn>, id: RunId)
    requires Inv(s) && id in s.runs && AllTheirs(turns) && CanRun(s, Acts(turns))
    ensures var t := After(s, Acts(turns));
            && id in t.runs && Earlier(s.runs[id], t.runs[id]) && (Undisturbed(s, turns, id) <==> t.runs[id] == s.runs[id])
    decreases |turns|
  {
    hide Inv, Next, Enabled, NextRuns;
    if turns == [] {
      assert Acts(turns) == [];
      EarlierItself(s.runs[id]);
    } else {
      var a := turns[0].act;
      assert Acts(turns)[1..] == Acts(turns[1..]) && Acts(turns)[0] == a;
      RowAfterStep(s, a, id);
      TheirsChangeIff(Next(s, a), turns[1..], id);
      EarlierIsTransitive(s.runs[id], Next(s, a).runs[id], After(s, Acts(turns)).runs[id]);
    }
  }

  lemma RowAfterStep(s: System, a: Action, id: RunId)
    requires Inv(s) && id in s.runs && Enabled(s, a)
    ensures Inv(Next(s, a)) && Next(s, a).runs == NextRuns(s.runs, a)
    ensures id in Next(s, a).runs && Earlier(s.runs[id], Next(s, a).runs[id])
  {
    hide Enabled, NextRuns, RowsOk, Unique, Earlier, CurrentRows;
    NextKeepsInv(s, a);
    assert (id, s.runs[id]) in s.seen;
  }

  /** Whatever other callers do in between, a step of a driver that was enabled when it was chosen still is. */
  lemma StaysEnabled(s: System, others: seq<Action>, a: Action)
    requires Inv(s) && CanRun(s, others) && Enabled(s, a) && !a.DoCreate?
    ensures Enabled(After(s, others), a)
  {
    hide Inv, Next;
    InvAlways(s, others);
  }

  // ---- _transition_if_needed ----

  /** Passed is asked for only by callers whose snapshot of a full run holds the attestation. */
  predicate MayAsk(snapshot: Run, phase: Phase) {
    phase.Passed? && snapshot.identity.mode.Full? ==> snapshot.attestation.Some?
  }

  /** One pass: the compare-and-swap may be lost, or refused for good. */
  method TryTransition(store: Store, id: RunId, snapshot: Run, phase: Phase, status: string,
                       code: Option<string>, message: Option<string>) returns (result: Option<Run>, lost: bool)
    requires id in store.runs && Earlier(snapshot, store.runs[id])
    modifies store
    ensures lost <==> Needed(snapshot, phase, status, code, message) && snapshot != old(store.runs)[id]
    ensures store.runs == Attempt(old(store.runs), id, snapshot, phase, status, code, message)
    ensures lost ==> store.runs == old(store.runs)
    ensures id in store.runs
    ensures !lost ==> result == Some(if Needed(snapshot, phase, status, code, message) then store.runs[id] else snapshot)
  {
    hide Moved, Name, Rank;
    result, lost := Some(snapshot), false;
    if snapshot.terminal { return; }
    var target := StatusOf(phase, status);
    var move := Rank(phase) > Rank(snapshot.phase);
    if !(move || target != snapshot.status || (code.Some? && code != snapshot.errorCode)
         || (message.Some? && message != snapshot.errorMessage))
    {
      return;
    }
    var next := if move then phase else snapshot.phase;
    var outcome := store.TransitionConvergence(id, snapshot.revision, next, target, code, message);
    lost := outcome.RevisionMismatch?;
    result := if outcome.Updated? then Some(store.runs[id]) else None;
  }

  // ---- What other callers may do in between ----

  /** One call of another caller; a call the store or the caller itself refuses changes nothing. */
  method OtherCall(store: Store, a: Action, id: RunId, row: Run, ghost s: System) returns (ghost turns: seq<Turn>, ghost t: System)
    requires Knows(s, store.runs, id, row)
    modifies store
    ensures AllTheirs(turns) && Follows(s, turns, t, store.runs, id, row)
  {
    hide Inv, Follows, Moved, Next, Finds, Create, Bound, Bumped, Blank, RecordAnalysis, RecordEvidence;
    turns, t := [], s;
    NoStep(s, s.runs, id, row);
    ghost var act := a;
    match a {
      case DoCreate(i, n, key, _, _) =>
        var _, _, keyed, active := store.CreateOrGet(i, n, key);
        act := DoCreate(i, n, key, keyed, active);
      case DoMove(i, _, phase, status, code, message) =>
        if i !in store.runs || !MayAsk(store.runs[i], phase) { return; }
        CurrentIsKnown(s, i);
        EarlierItself(store.runs[i]);
        act := DoMove(i, store.runs[i], phase, status, code, message);
        var _, _ := TryTransition(store, i, store.runs[i], phase, status, code, message);
      case DoBind(i, expected, f, v) =>
        if f.CiJob? { return; }
        var _ := store.BindOnce(i, expected, f, v);
      case DoBindJob(i, _, request, job) =>
        if i !in store.runs || store.runs[i].request != Some(request) { return; }
        CurrentIsKnown(s, i);
        act := DoBindJob(i, store.runs[i], request, job);
        var _ := store.BindCiJob(i, store.runs[i].revision, request, job);
      case DoAnalysis(i, expected, stage, stageRow) =>
        var _ := store.RecordAnalysisState(i, expected, stage, stageRow);
      case DoEvidence(i, expected, attestation, pack) =>
        var _ := store.RecordTerminalEvidence(i, expected, attestation, pack);
    }
    turns, t := [Theirs(act)], Next(s, act);
    OneStep(s, s.runs, id, row, Theirs(act));
  }

  /** Any number of calls of other callers, in any order and with any arguments. */
  method OthersAct(store: Store, id: RunId, row: Run, ghost s: System) returns (ghost turns: seq<Turn>, ghost t: System)
    requires Knows(s, store.runs, id, row)
    modifies store
    ensures id in old(store.runs) && id in store.runs
    ensures AllTheirs(turns) && Follows(s, turns, t, store.runs, id, row) && Knows(t, store.runs, id, row)
    ensures Undisturbed(s, turns, id) <==> store.runs[id] == old(store.runs)[id]
  {
    hide Inv, Follows, Undisturbed;
    turns, t := [], s;
    NoStep(s, s.runs, id, row);
    var calls: int := *;
    while calls > 0
      invariant AllTheirs(turns) && Follows(s, turns, t, store.runs, id, row) && Knows(t, store.runs, id, row)
    {
      var a: Action := *;
      ghost var was, before := store.runs, t;
      ghost var more, next := OtherCall(store, a, id, row, t);
      Joined(s, turns, before, more, next, was, row, store.runs, id, row);
      turns, t := turns + more, next;
      Known(s, turns, t, store.runs, id, row);
      calls := calls - 1;
    }
    KnowsTheRow(s, s.runs, id, row);
    Reached(s, turns, t, store.runs, id, row);
    TheirsChangeIff(s, turns, id);
  }

  lemma NothingReached(s: System)
    ensures Reaches(s, [], s)
  {
    assert Acts([]) == [];
  }

  lemma StillMayAsk(s: System, runs: Runs, id: RunId, snapshot: Run, phase: Phase)
    requires Knows(s, runs, id, snapshot) && MayAsk(snapshot, phase)
    ensures id in runs && MayAsk(runs[id], phase)
  {
    hide RowsOk, Unique;
  }

  lemma Reached(s: System, turns: seq<Turn>, t: System, runs: Runs, id: RunId, row: Run)
    requires Follows(s, turns, t, runs, id, row)
    ensures Reaches(s, turns, t)
  {
    hide Inv, After, CanRun;
  }

  lemma KnowsCurrent(s: System, turns: seq<Turn>, t: System, runs: Runs, id: RunId, row: Run)
    requires Follows(s, turns, t, runs, id, row)
    ensures id in runs && Follows(s, turns, t, runs, id, runs[id])
  {
    hide Inv, After, CanRun;
    KnowsTheRow(t, runs, id, row);
  }

  lemma CurrentIsKnown(s: System, id: RunId)
    requires Inv(s) && id in s.runs
    ensures Knows(s, s.runs, id, s.runs[id])
  {
    hide RowsOk, Unique, Earlier;
  }
}
