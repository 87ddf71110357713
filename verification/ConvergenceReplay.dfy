/**
 Transitions, evidence and bindings with one replay. Other callers act after a lost swap before the row is read
 again, and once more before the retry. Each method also returns, as ghosts, the turns taken meanwhile.
 */
module ConvergenceReplay {
  import opened LogStore
  import opened ConvergenceStore
  import opened Convergence
  import opened CallerTurns

  // ---- _transition_if_needed, with other callers in between ----

  /** The row after a request that is decided on it. */
  function Asked(r: Run, phase: Phase, status: string, code: Option<string>, message: Option<string>): Run {
    if Needed(r, phase, status, code, message) then Moved(r, Target(r, phase), StatusOf(phase, status), code, message) else r
  }

  /** What a request with a snapshot comes to: nothing if the snapshot or else the row does not ask for it. */
  function Settled(r: Run, snapshot: Run, phase: Phase, status: string, code: Option<string>, message: Option<string>): Run {
    if Needed(snapshot, phase, status, code, message) then Asked(r, phase, status, code, message) else r
  }

  lemma AttemptAsks(runs: Runs, id: RunId, phase: Phase, status: string, code: Option<string>, message: Option<string>)
    requires id in runs
    ensures Attempt(runs, id, runs[id], phase, status, code, message) == runs[id := Asked(runs[id], phase, status, code, message)]
  {
    hide Moved, Target, StatusOf;
  }

  lemma AskedIsDone(r: Run, phase: Phase, status: string, code: Option<string>, message: Option<string>)
    ensures !Needed(Asked(r, phase, status, code, message), phase, status, code, message)
  {
  }

  lemma NotNeededAsks(r: Run, phase: Phase, status: string, code: Option<string>, message: Option<string>)
    ensures !Needed(r, phase, status, code, message) ==> Asked(r, phase, status, code, message) == r
  {
  }

  lemma NotNeededAttempts(runs: Runs, id: RunId, r: Run, phase: Phase, status: string, code: Option<string>,
                          message: Option<string>)
    ensures !Needed(r, phase, status, code, message) ==> Attempt(runs, id, r, phase, status, code, message) == runs
  {
  }

  lemma TerminalIsDone(r: Run, phase: Phase, status: string, code: Option<string>, message: Option<string>)
    requires r.terminal
    ensures !Needed(r, phase, status, code, message) && Asked(r, phase, status, code, message) == r
  {
  }

  /** The driver's own steps ask for nothing but this phase of this run. */
  predicate OnlyAsksFor(turns: seq<Turn>, id: RunId, phase: Phase) {
    forall k :: 0 <= k < |turns| && turns[k].Mine? ==> turns[k].act.DoMove? && turns[k].act.id == id && turns[k].act.phase == phase
  }

  /** The retry: decided on the row that was read again, and refused exactly when others changed that row since. */
  method RetryTransition(store: Store, id: RunId, refreshed: Run, phase: Phase, status: string,
                         code: Option<string>, message: Option<string>, ghost s: System)
    returns (result: Option<Run>, ghost turns: seq<Turn>, ghost t: System)
    requires Knows(s, store.runs, id, refreshed) && id in store.runs && refreshed == store.runs[id] && MayAsk(refreshed, phase)
    modifies store
    ensures id in store.runs && OnlyAsksFor(turns, id, phase)
    ensures Follows(s, turns, t, store.runs, id, if result.Some? then result.value else refreshed)
    ensures result.None? <==> Needed(refreshed, phase, status, code, message) && !Undisturbed(s, turns, id)
    ensures result.Some? ==> !Needed(result.value, phase, status, code, message) && Earlier(refreshed, result.value)
    ensures Undisturbed(s, turns, id) ==>
              result == Some(store.runs[id]) && store.runs[id] == Asked(refreshed, phase, status, code, message)
  {
    hide Moved, Target, StatusOf, Inv, Follows, After, CanRun, Next, Attempt, Asked, Needed, Undisturbed, Earlier, RowOk;
    turns, t := OthersAct(store, id, refreshed, s);
    KnowsTheRow(t, store.runs, id, refreshed);
    AttemptAsks(store.runs, id, phase, status, code, message);
    AskedIsDone(store.runs[id], phase, status, code, message);
    var lost;
    ghost var was, mine := store.runs, Mine(DoMove(id, refreshed, phase, status, code, message));
    result, lost := TryTransition(store, id, refreshed, phase, status, code, message);
    if lost { return None, turns, t; }
    OneStep(t, was, id, refreshed, mine);
    Joined(s, turns, t, [mine], Next(t, mine.act), was, refreshed, store.runs, id, result.value);
    NotNeededAsks(refreshed, phase, status, code, message);
    Known(t, [mine], Next(t, mine.act), store.runs, id, refreshed);
    KnowsTheRow(Next(t, mine.act), store.runs, id, refreshed);
    EarlierItself(refreshed);
    turns, t := turns + [mine], Next(t, mine.act);
  }

  /**
   The row is read again after the first k turns, as `read`. The caller is refused exactly when its snapshot
   was stale, both snapshot and re-read row ask for something, and another caller changed the row before the
   retry. Otherwise the row it gets asks for nothing more; and undisturbed it ends like a fresh caller.
   */
  method TransitionIfNeeded(store: Store, id: RunId, snapshot: Run, phase: Phase, status: string,
                            code: Option<string>, message: Option<string>, ghost s: System)
    returns (result: Option<Run>, ghost turns: seq<Turn>, ghost t: System, ghost k: nat, ghost read: System)
    requires Knows(s, store.runs, id, snapshot) && MayAsk(snapshot, phase)
    modifies store
    ensures id in old(store.runs) && id in store.runs && OnlyAsksFor(turns, id, phase)
    ensures Follows(s, turns, t, store.runs, id, if result.Some? then result.value else snapshot)
    ensures k <= |turns| && Reaches(s, turns[..k], read) && id in read.runs
    ensures result.None? <==>
              && snapshot != old(store.runs)[id] && Needed(snapshot, phase, status, code, message)
              && Needed(read.runs[id], phase, status, code, message) && !Undisturbed(read, turns[k..], id)
    ensures result.Some? ==> !Needed(result.value, phase, status, code, message) && Earlier(snapshot, result.value)
    ensures Undisturbed(s, turns, id) ==>
              && result == Some(if Needed(snapshot, phase, status, code, message) then store.runs[id] else snapshot)
              && store.runs[id] == Settled(old(store.runs)[id], snapshot, phase, status, code, message)
  {
    hide Moved, Target, StatusOf, Inv, Follows, After, CanRun, Next, Attempt, Asked, Needed, Undisturbed, Earlier, RowOk;
    KnowsTheRow(s, store.runs, id, snapshot);
    k, read := 0, s;
    AttemptAsks(store.runs, id, phase, status, code, message);
    AskedIsDone(store.runs[id], phase, status, code, message);
    NothingReached(s);
    var lost;
    ghost var mine := Mine(DoMove(id, snapshot, phase, status, code, message));
    result, lost := TryTransition(store, id, snapshot, phase, status, code, message);
    if !lost {
      OneStep(s, s.runs, id, snapshot, mine);
      NotNeededAttempts(s.runs, id, snapshot, phase, status, code, message);
      turns, t := [mine], Next(s, mine.act);
      Known(s, turns, t, store.runs, id, snapshot);
      KnowsTheRow(t, store.runs, id, snapshot);
      EarlierItself(snapshot);
      assert turns[..0] == [] && turns[0..] == turns;
      return;
    }
    turns, read := OthersAct(store, id, snapshot, s);
    k, t := |turns|, read;
    Reached(s, turns, read, store.runs, id, snapshot);
    KnowsTheRow(read, store.runs, id, snapshot);
    var refreshed := store.runs[id];
    if refreshed.terminal {
      KnowsCurrent(s, turns, read, store.runs, id, snapshot);
      TerminalIsDone(refreshed, phase, status, code, message);
      assert turns[..k] == turns && turns[k..] == [];
      return Some(refreshed), turns, t, k, read;
    }
    StillMayAsk(read, store.runs, id, snapshot, phase);
    ghost var was := store.runs;
    ghost var more;
    result, more, t := RetryTransition(store, id, refreshed, phase, status, code, message, read);
    Joined(s, turns, read, more, t, was, snapshot, store.runs, id, if result.Some? then result.value else refreshed);
    Known(read, more, t, store.runs, id, if result.Some? then result.value else refreshed);
    assert (turns + more)[..k] == turns && (turns + more)[k..] == more;
    turns := turns + more;
    if result.Some? { EarlierIsTransitive(snapshot, refreshed, result.value); }
    StillKnows(s, turns, t, store.runs, id, if result.Some? then result.value else refreshed, snapshot);
  }

  // ---- _record_terminal_evidence_if_needed ----

  predicate Holds(r: Run, attestation: string, pack: string) {
    r.attestation == Value(attestation) && r.failurePack == Value(pack)
  }

  predicate EvidenceConflicts(r: Run, attestation: string, pack: string) {
    Conflicts(r.attestation, Value(attestation)) || Conflicts(r.failurePack, Value(pack))
  }

  predicate NothingToRecord(snapshot: Run, attestation: string, pack: string) {
    (attestation == "" && pack == "") || Holds(snapshot, attestation, pack)
  }

  /** The row with the evidence added, unless it holds other evidence. */
  function Recorded(r: Run, attestation: string, pack: string): Run {
    var a, f := Filled(r.attestation, Value(attestation)), Filled(r.failurePack, Value(pack));
    if EvidenceConflicts(r, attestation, pack) || (a == r.attestation && f == r.failurePack) then r
    else Bumped(r, r.phase).(attestation := a, failurePack := f)
  }

  lemma RecordingIs(runs: Runs, id: RunId, attestation: string, pack: string)
    requires id in runs && !(attestation == "" && pack == "")
    ensures var r := runs[id];
            var outcome := EvidenceOutcome(runs, id, r.revision, attestation, pack);
            && RecordEvidence(runs, id, r.revision, attestation, pack) == runs[id := Recorded(r, attestation, pack)]
            && (outcome.IdentityMismatch? <==> EvidenceConflicts(r, attestation, pack))
            && (outcome.IdentityMismatch? || outcome.Updated? || outcome.Unchanged?)
  {
    hide Bumped;
  }

  lemma LostRecordsNothing(runs: Runs, id: RunId, expected: int, attestation: string, pack: string)
    requires id in runs && !(attestation == "" && pack == "")
    ensures EvidenceOutcome(runs, id, expected, attestation, pack).RevisionMismatch? <==> expected != runs[id].revision
    ensures expected != runs[id].revision ==> RecordEvidence(runs, id, expected, attestation, pack) == runs
  {
  }

  lemma RecordedHolds(r: Run, attestation: string, pack: string)
    ensures var r' := Recorded(r, attestation, pack);
            && (EvidenceConflicts(r', attestation, pack) <==> EvidenceConflicts(r, attestation, pack))
            && (!EvidenceConflicts(r, attestation, pack) && attestation != "" ==> r'.attestation == Some(attestation))
  {
  }

  /** The retry: refused exactly when others changed the row since it was read again, or it holds other evidence. */
  method RetryEvidence(store: Store, id: RunId, refreshed: Run, attestation: string, pack: string, ghost s: System)
    returns (result: Option<Run>, lost: bool, ghost turns: seq<Turn>, ghost t: System)
    requires Knows(s, store.runs, id, refreshed) && id in store.runs && refreshed == store.runs[id]
    requires !(attestation == "" && pack == "")
    modifies store
    ensures id in store.runs && !AsksToPass(turns)
    ensures Follows(s, turns, t, store.runs, id, if result.Some? then result.value else store.runs[id])
    ensures lost <==> !Undisturbed(s, turns, id)
    ensures result.None? <==> lost || EvidenceConflicts(store.runs[id], attestation, pack)
    ensures result.Some? ==> result.value == store.runs[id] && (attestation != "" ==> result.value.attestation == Some(attestation))
    ensures Undisturbed(s, turns, id) ==>
              && store.runs[id] == Recorded(refreshed, attestation, pack)
              && (result.None? <==> EvidenceConflicts(refreshed, attestation, pack))
  {
    hide Inv, Follows, After, CanRun, Next, Undisturbed, Recorded, EvidenceConflicts, RecordEvidence, EvidenceOutcome, RowOk,
         Earlier;
    turns, t := OthersAct(store, id, refreshed, s);
    KnowsTheRow(t, store.runs, id, refreshed);
    ghost var was, mine := store.runs, Mine(DoEvidence(id, refreshed.revision, attestation, pack));
    RecordingIs(was, id, attestation, pack);
    RecordedHolds(was[id], attestation, pack);
    LostRecordsNothing(was, id, refreshed.revision, attestation, pack);
    var outcome := store.RecordTerminalEvidence(id, refreshed.revision, attestation, pack);
    lost := outcome.RevisionMismatch?;
    OneStep(t, was, id, refreshed, mine);
    Joined(s, turns, t, [mine], Next(t, mine.act), was, refreshed, store.runs, id, store.runs[id]);
    turns, t := turns + [mine], Next(t, mine.act);
    result := if outcome.Updated? || outcome.Unchanged? then Some(store.runs[id]) else None;
  }

  /**
   The row is read again after the first k turns, as `read`. The swap is lost for good exactly when the
   snapshot was stale, the re-read row still lacks the evidence, and others changed it before the retry.
   Otherwise it is refused exactly when the row holds other evidence.
   */
  method RecordEvidenceIfNeeded(store: Store, id: RunId, snapshot: Run, attestation: string, pack: string, ghost s: System)
    returns (result: Option<Run>, lost: bool, ghost turns: seq<Turn>, ghost t: System, ghost k: nat, ghost read: System)
    requires Knows(s, store.runs, id, snapshot)
    modifies store
    ensures id in old(store.runs) && id in store.runs && !AsksToPass(turns)
    ensures Follows(s, turns, t, store.runs, id, if result.Some? then result.value else store.runs[id])
    ensures k <= |turns| && Reaches(s, turns[..k], read) && id in read.runs
    ensures lost <==>
              && snapshot != old(store.runs)[id] && !NothingToRecord(snapshot, attestation, pack)
              && !Holds(read.runs[id], attestation, pack) && !Undisturbed(read, turns[k..], id)
    ensures lost ==> result.None?
    ensures !lost ==>
              (result.None? <==>
               !NothingToRecord(snapshot, attestation, pack) && EvidenceConflicts(store.runs[id], attestation, pack))
    ensures result.Some? && attestation != "" ==> result.value.attestation == Some(attestation)
    ensures Undisturbed(s, turns, id) ==>
              var r := old(store.runs)[id];
              if NothingToRecord(snapshot, attestation, pack) then result == Some(snapshot) && store.runs[id] == r
              else
                && (result.None? <==> EvidenceConflicts(r, attestation, pack))
                && (result.Some? ==> result.value == store.runs[id]) && store.runs[id] == Recorded(r, attestation, pack)
  {
    hide Inv, Follows, After, CanRun, Next, Undisturbed, Recorded, EvidenceConflicts, RecordEvidence, EvidenceOutcome, RowOk,
         Earlier;
    KnowsTheRow(s, store.runs, id, snapshot);
    NoStep(s, s.runs, id, snapshot);
    KnowsCurrent(s, [], s, s.runs, id, snapshot);
    NothingReached(s);
    turns, t, k, read, lost := [], s, 0, s, false;
    if attestation == "" && pack == "" { return Some(snapshot), lost, turns, t, k, read; }
    if snapshot.attestation == Value(attestation) && snapshot.failurePack == Value(pack) {
      return Some(snapshot), lost, turns, t, k, read;
    }
    ghost var was := store.runs;
    RecordingIs(was, id, attestation, pack);
    RecordedHolds(was[id], attestation, pack);
    LostRecordsNothing(was, id, snapshot.revision, attestation, pack);
    var outcome := store.RecordTerminalEvidence(id, snapshot.revision, attestation, pack);
    if !outcome.RevisionMismatch? {
      turns := [Mine(DoEvidence(id, snapshot.revision, attestation, pack))];
      t := Next(s, turns[0].act);
      OneStep(s, s.runs, id, snapshot, turns[0]);
      assert turns[..0] == [] && turns[0..] == turns;
      result := if outcome.Updated? || outcome.Unchanged? then Some(store.runs[id]) else None;
      return;
    }
    turns, read := OthersAct(store, id, snapshot, s);
    k, t := |turns|, read;
    Reached(s, turns, read, store.runs, id, snapshot);
    KnowsTheRow(read, store.runs, id, snapshot);
    KnowsCurrent(s, turns, read, store.runs, id, snapshot);
    assert turns[..k] == turns && turns[k..] == [];
    var refreshed := store.runs[id];
    if refreshed.attestation == Value(attestation) && refreshed.failurePack == Value(pack) {
      HoldsHasNoConflict(refreshed, attestation, pack);
      return Some(refreshed), lost, turns, t, k, read;
    }
    was := store.runs;
    ghost var more;
    result, lost, more, t := RetryEvidence(store, id, refreshed, attestation, pack, read);
    Joined(s, turns, read, more, t, was, snapshot, store.runs, id, if result.Some? then result.value else store.runs[id]);
    assert (turns + more)[..k] == turns && (turns + more)[k..] == more;
    turns := turns + more;
  }

  lemma HoldsHasNoConflict(r: Run, attestation: string, pack: string)
    requires Holds(r, attestation, pack)
    ensures !EvidenceConflicts(r, attestation, pack) && Recorded(r, attestation, pack) == r
  {
  }

  // ---- _bind_with_replay ----

  /** The store method handed in with its arguments. */
  datatype Binder = BindField(field: Field, value: string) | BindJobOf(request: string, job: string)

  function BinderOutcome(runs: Runs, id: RunId, expected: int, b: Binder): Outcome {
    match b
    case BindField(f, v) => BindOutcome(runs, id, expected, f, v)
    case BindJobOf(request, job) =>
      var c := Checked(runs, id, expected);
      if !c.Updated? then c
      else if id in runs && runs[id].request != Some(request) then ConvergenceStore.IdentityMismatch
      else BindOutcome(runs, id, expected, CiJob, job)
  }

  function Binding(runs: Runs, id: RunId, expected: int, b: Binder): Runs {
    match b
    case BindField(f, v) => Bind(runs, id, expected, f, v)
    case BindJobOf(request, job) =>
      if BinderOutcome(runs, id, expected, b).Updated? then Bind(runs, id, expected, CiJob, job) else runs
  }

  method CallBinder(store: Store, id: RunId, expected: int, b: Binder) returns (outcome: Outcome)
    modifies store
    ensures outcome == BinderOutcome(old(store.runs), id, expected, b)
    ensures store.runs == Binding(old(store.runs), id, expected, b)
  {
    match b
    case BindField(f, v) => outcome := store.BindOnce(id, expected, f, v);
    case BindJobOf(request, job) => outcome := store.BindCiJob(id, expected, request, job);
  }

  /** The action a binder's call is; binding a job needs the Request that was read at that revision. */
  function BinderAct(runs: Runs, id: RunId, b: Binder): Action
    requires id in runs
  {
    match b
    case BindField(f, v) => DoBind(id, runs[id].revision, f, v)
    case BindJobOf(request, job) => DoBindJob(id, runs[id], request, job)
  }

  lemma BinderIsAStep(s: System, runs: Runs, id: RunId, b: Binder)
    requires id in runs && Knows(s, runs, id, runs[id]) && !(b.BindField? && b.field.CiJob?)
    requires BinderOutcome(runs, id, runs[id].revision, b).Updated?
    ensures Enabled(s, BinderAct(runs, id, b))
    ensures NextRuns(runs, BinderAct(runs, id, b)) == Binding(runs, id, runs[id].revision, b)
  {
    hide Inv, Blank, Bumped, WithBinding, Bound;
  }

  /** The store method raises before it looks at the revision. */
  predicate Malformed(b: Binder) { b.BindField? && Blank(b.value) }

  function FieldOf(b: Binder): Field { if b.BindField? then b.field else CiJob }

  function ValueOf(b: Binder): string { if b.BindField? then b.value else b.job }

  /** What a binding decided on the row says. */
  function BindingOn(r: Run, b: Binder): Outcome {
    if b.BindJobOf? && r.request != Some(b.request) then ConvergenceStore.IdentityMismatch
    else if Blank(ValueOf(b)) then InvalidRequest
    else if r.terminal then StateInvalid
    else if Bound(r, FieldOf(b)).None? then Updated
    else if Bound(r, FieldOf(b)) == Some(ValueOf(b)) then Unchanged
    else ConvergenceStore.IdentityMismatch
  }

  function BoundRow(r: Run, b: Binder): Run {
    if BindingOn(r, b).Updated? then Bumped(WithBinding(r, FieldOf(b), ValueOf(b)), r.phase) else r
  }

  lemma BindingIs(runs: Runs, id: RunId, expected: int, b: Binder)
    requires id in runs
    ensures var outcome := BinderOutcome(runs, id, expected, b);
            && (outcome.RevisionMismatch? <==> !Malformed(b) && expected != runs[id].revision)
            && (!outcome.Updated? ==> Binding(runs, id, expected, b) == runs)
            && (expected == runs[id].revision ==> outcome == BindingOn(runs[id], b))
            && (Malformed(b) ==> outcome.InvalidRequest?)
            && (expected == runs[id].revision ==> Binding(runs, id, expected, b) == runs[id := BoundRow(runs[id], b)])
  {
    hide Blank, Bumped, WithBinding;
  }

  lemma BoundRowHolds(r: Run, b: Binder)
    ensures BindingOn(r, b).Updated? || BindingOn(r, b).Unchanged? ==>
              && Bound(BoundRow(r, b), FieldOf(b)) == Some(ValueOf(b))
              && (b.BindJobOf? ==> BoundRow(r, b).request == Some(b.request))
  {
    hide Blank;
  }

  /** One call of the binder at the revision of a row that was read at some time, as a step if it binds. */
  method BindAt(store: Store, id: RunId, row: Run, b: Binder, ghost s: System)
    returns (outcome: Outcome, ghost turns: seq<Turn>, ghost t: System)
    requires Knows(s, store.runs, id, row) && !(b.BindField? && b.field.CiJob?)
    modifies store
    ensures id in old(store.runs) && id in store.runs && !AsksToPass(turns) && Undisturbed(s, turns, id)
    ensures Follows(s, turns, t, store.runs, id, row)
    ensures outcome.RevisionMismatch? <==> !Malformed(b) && row != old(store.runs)[id]
    ensures Malformed(b) ==> outcome.InvalidRequest?
    ensures outcome.RevisionMismatch? ==> store.runs == old(store.runs) && turns == [] && t == s
    ensures if outcome.RevisionMismatch? || Malformed(b) then store.runs[id] == old(store.runs)[id]
            else outcome == BindingOn(old(store.runs)[id], b) && store.runs[id] == BoundRow(old(store.runs)[id], b)
  {
    hide Inv, Follows, After, CanRun, Next, Undisturbed, Malformed, BindingOn, BoundRow, BinderOutcome, Binding, RowOk, NextRuns,
         Enabled;
    KnowsTheRow(s, store.runs, id, row);
    ghost var was := store.runs;
    BindingIs(was, id, row.revision, b);
    MalformedBindsNothing(was[id], b);
    outcome := CallBinder(store, id, row.revision, b);
    if outcome.Updated? {
      turns := [Mine(BinderAct(s.runs, id, b))];
      t := Next(s, turns[0].act);
      BinderIsAStep(s, s.runs, id, b);
      OneStep(s, s.runs, id, row, turns[0]);
    } else {
      turns, t := [], s;
      NoStep(s, s.runs, id, row);
    }
  }

  lemma MalformedBindsNothing(r: Run, b: Binder)
    ensures Malformed(b) ==> BindingOn(r, b).InvalidRequest? && BoundRow(r, b) == r
  {
  }

  /**
   The row is read again after the first k turns, as `read`. The swap is lost for good exactly when the
   snapshot was stale and others changed the row before the retry; undisturbed, any binding is decided on the
   current row, a job under its Request included.
   */
  method BindWithReplay(store: Store, id: RunId, snapshot: Run, b: Binder, ghost s: System)
    returns (outcome: Outcome, ghost turns: seq<Turn>, ghost t: System, ghost k: nat, ghost read: System)
    requires Knows(s, store.runs, id, snapshot) && !(b.BindField? && b.field.CiJob?)
    modifies store
    ensures id in old(store.runs) && id in store.runs && !AsksToPass(turns)
    ensures Follows(s, turns, t, store.runs, id, store.runs[id])
    ensures k <= |turns| && Reaches(s, turns[..k], read) && id in read.runs
    ensures outcome.RevisionMismatch? <==>
              snapshot != old(store.runs)[id] && !Malformed(b) && !Undisturbed(read, turns[k..], id)
    ensures outcome.Updated? || outcome.Unchanged? ==>
              && Bound(store.runs[id], FieldOf(b)) == Some(ValueOf(b))
              && (b.BindJobOf? ==> store.runs[id].request == Some(b.request))
    ensures Undisturbed(s, turns, id) ==>
              outcome == BindingOn(old(store.runs)[id], b) && store.runs[id] == BoundRow(old(store.runs)[id], b)
  {
    hide Inv, Follows, After, CanRun, Next, Undisturbed, Malformed, BindingOn, BoundRow, RowOk, Earlier;
    NothingReached(s);
    KnowsTheRow(s, store.runs, id, snapshot);
    k, read := 0, s;
    MalformedBindsNothing(store.runs[id], b);
    BoundRowHolds(store.runs[id], b);
    outcome, turns, t := BindAt(store, id, snapshot, b, s);
    assert turns[..0] == [] && turns[0..] == turns;
    if !outcome.RevisionMismatch? {
      KnowsCurrent(s, turns, t, store.runs, id, snapshot);
      return;
    }
    turns, read := OthersAct(store, id, snapshot, s);
    k := |turns|;
    Reached(s, turns, read, store.runs, id, snapshot);
    KnowsTheRow(read, store.runs, id, snapshot);
    var refreshed := store.runs[id];
    ghost var was, window, mid, more := store.runs, [], read, [];
    window, mid := OthersAct(store, id, refreshed, read);
    KnowsTheRow(mid, store.runs, id, refreshed);
    Joined(s, turns, read, window, mid, was, snapshot, store.runs, id, refreshed);
    was := store.runs;
    BoundRowHolds(was[id], b);
    MalformedBindsNothing(was[id], b);
    outcome, more, t := BindAt(store, id, refreshed, b, mid);
    Joined(read, window, mid, more, t, was, refreshed, store.runs, id, refreshed);
    Joined(s, turns + window, mid, more, t, was, refreshed, store.runs, id, refreshed);
    assert (turns + window + more)[..k] == turns && (turns + window + more)[k..] == window + more;
    turns := turns + window + more;
    KnowsCurrent(s, turns, t, store.runs, id, refreshed);
  }
}
