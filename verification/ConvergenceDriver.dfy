/**
 The CI track and the CI finalizer of a convergence. Other callers act between any two of their store calls.
 */
module ConvergenceDriver {
  import opened LogStore
  import opened ConvergenceStore
  import opened Convergence
  import opened CallerTurns
  import opened ConvergenceReplay
  import J = JobQueue
  import R = RequestStore
  import W = RequestRows

  // ---- _sync_full_ci_session_evidence ----

  const FAST_PROFILE := "repo-fast-check"
  const FULL_PROFILE := "repo-auto-check"

  function ProfileOf(mode: Mode): string { if mode.Fast? then FAST_PROFILE else FULL_PROFILE }

  /** The columns of the Development Session that the caller reads. */
  datatype Session = Session(
    id: string, workspace: string, repository: string, branch: string, head: string, tree: string, baseBranch: string,
    status: string, lastJob: string, lastAttestation: string)

  /** What the registry says about an attestation id. */
  datatype Certificate = Certificate(repository: string, commit: string, tree: string, base: string, job: string, profile: string)
  datatype Verdict = Verdict(ok: bool, reusable: bool, certificate: Option<Certificate>)

  /** The write of the full-CI columns: done, lost to a caller that left `latest`, or refused. */
  datatype SessionWrite = Written | Overtaken(latest: Session) | Refused

  /** All that the finalizer reads outside the convergence tables. */
  datatype Evidence = Evidence(
    request: R.Request, reason: string, pack: string, job: Option<J.Job>, session: Session, verdict: Verdict, write: SessionWrite,
    indexReady: bool, analysisPending: bool, analysisDegraded: bool)

  function AttestationOf(e: Evidence): string { if e.request.attestation.Some? then e.request.attestation.value else "" }

  function JobOf(request: R.Request): string { if request.job.Some? then request.job.value else "" }

  predicate DidPass(e: Evidence) { e.request.state == R.Ended(R.DidPass) }

  /** _validate_ci_request_identity; of the columns it reads only the tree may be open. */
  predicate FitsRequest(request: R.Request, n: Identity, mode: Mode) {
    && request.identity.repository == n.repository && request.identity.branch == n.branch && request.identity.commit == n.head
    && request.identity.profile == ProfileOf(mode) && (request.identity.tree == "" || request.identity.tree == n.tree)
  }

  /** No _identity_drift; the base is taken from the run itself. */
  predicate SameTask(n: Identity, s: Session) {
    && n.session == s.id && n.workspace == s.workspace && n.repository == s.repository && n.branch == s.branch
    && n.head == s.head && n.tree == s.tree && n.baseBranch == s.baseBranch
  }

  predicate WorkerProves(job: J.Job, n: Identity) {
    && job.order.repository == n.repository && job.order.branch == n.branch && job.order.commit == n.head
    && job.order.profile == FULL_PROFILE && job.status.Passed? && job.exitCode == Some(0) && job.tree == n.tree
  }

  predicate Certifies(v: Verdict, n: Identity, job: string) {
    && v.certificate.Some? && v.ok && v.reusable
    && v.certificate.value == Certificate(n.repository, n.head, n.tree, n.base, job, FULL_PROFILE)
  }

  /** Already bound, bound now, or bound alike by the caller that won. */
  predicate SessionBound(e: Evidence, n: Identity) {
    var job, attestation := JobOf(e.request), AttestationOf(e);
    || (e.session.lastJob == job && e.session.lastAttestation == attestation)
    || e.write.Written?
    || (e.write.Overtaken? && e.write.latest.head == n.head && e.write.latest.tree == n.tree
        && e.write.latest.workspace == n.workspace && e.write.latest.lastJob == job && e.write.latest.lastAttestation == attestation)
  }

  /** It does not raise. The mode is not asked for: the Request is always held against the full profile. */
  predicate SyncAccepts(e: Evidence, n: Identity) {
    && JobOf(e.request) != "" && AttestationOf(e) != "" && DidPass(e) && e.session.status in {"active", "pr_ready"}
    && FitsRequest(e.request, n, Full) && SameTask(n, e.session)
    && e.job.Some? && WorkerProves(e.job.value, n) && Certifies(e.verdict, n, JobOf(e.request)) && SessionBound(e, n)
  }

  /** Whatever the mode, only a Request with an attestation and the full profile is accepted. */
  lemma SyncNeedsAttestation(e: Evidence, n: Identity)
    ensures SyncAccepts(e, n) ==> AttestationOf(e) != "" && FitsRequest(e.request, n, Full)
  {
  }

  // ---- _finalize_ci_state ----

  predicate AllReady(analysis: map<Stage, StageRow>) {
    forall s: Stage :: s in analysis && analysis[s].state.Ready?
  }

  /** The row whose analysis the finalizer looks at: its own snapshot unless it had evidence to record. */
  function View(snapshot: Run, row: Run, e: Evidence): Run {
    if NothingToRecord(snapshot, AttestationOf(e), e.pack) then snapshot else row
  }

  /** The evidence of a passed Request can be recorded. */
  predicate Recordable(snapshot: Run, row: Run, e: Evidence) {
    NothingToRecord(snapshot, AttestationOf(e), e.pack) || !EvidenceConflicts(row, AttestationOf(e), e.pack)
  }

  /** The evidence outside the convergence tables is complete for this run. */
  predicate Complete(e: Evidence, n: Identity) {
    DidPass(e) && SyncAccepts(e, n) && e.indexReady && !e.analysisPending && !e.analysisDegraded
  }

  /** What must hold for a run to be passed. */
  predicate MayPass(snapshot: Run, row: Run, e: Evidence) {
    Complete(e, row.identity) && Recordable(snapshot, row, e) && AllReady(View(snapshot, row, e).analysis)
  }

  /**
   The evidence of a full run, column by column of the rows it is read from: the Request, the Session, the
   Worker Job, the certificate, and the Session columns that link job and attestation.
   */
  predicate Proven(e: Evidence, n: Identity) {
    var q, s, job, attestation := e.request, e.session, JobOf(e.request), AttestationOf(e);
    && W.RequestWord(q.state) == "passed" && job != "" && attestation != ""
    && q.identity.repository == n.repository && q.identity.branch == n.branch && q.identity.commit == n.head
    && q.identity.profile == "repo-auto-check" && (q.identity.tree != "" ==> q.identity.tree == n.tree)
    && s.id == n.session && s.workspace == n.workspace && s.repository == n.repository && s.branch == n.branch && s.head == n.head
    && s.tree == n.tree && s.baseBranch == n.baseBranch && (s.status == "active" || s.status == "pr_ready")
    && e.job.Some? && e.job.value.status == J.Passed && e.job.value.exitCode == Some(0) && e.job.value.tree == n.tree
    && e.job.value.order.repository == n.repository && e.job.value.order.branch == n.branch
    && e.job.value.order.commit == n.head && e.job.value.order.profile == "repo-auto-check"
    && e.verdict.ok && e.verdict.reusable && e.verdict.certificate.Some?
    && var certificate := e.verdict.certificate.value;
    && certificate.repository == n.repository && certificate.commit == n.head && certificate.tree == n.tree
    && certificate.base == n.base && certificate.job == job && certificate.profile == "repo-auto-check"
    && (s.lastJob != job || s.lastAttestation != attestation ==>
          match e.write
          case Written => true
          case Overtaken(latest) => latest.head == n.head && latest.tree == n.tree && latest.workspace == n.workspace
                                    && latest.lastJob == job && latest.lastAttestation == attestation
          case Refused => false)
    && e.indexReady && !e.analysisPending && !e.analysisDegraded
  }

  lemma CompleteIsProven(e: Evidence, n: Identity)
    ensures Complete(e, n) <==> Proven(e, n)
  {
    assert DidPass(e) <==> W.RequestWord(e.request.state) == "passed" by {
      assert "preparing"[1] == 'r' && "preflight_failed"[1] == 'r';
    }
  }

  /** Some row of the run, current or past, held the attestation and had its analysis ready. */
  ghost predicate SeenReady(t: System, id: RunId, e: Evidence) {
    exists r :: (id, r) in t.seen && AllReady(r.analysis) && r.attestation == Some(AttestationOf(e))
  }

  /** What must hold for a run to be failed: the Request ended otherwise and its failure pack is not another one. */
  predicate MayFail(snapshot: Run, row: Run, e: Evidence) {
    e.request.state.Ended? && !DidPass(e) && (NothingToRecord(snapshot, "", e.pack) || !EvidenceConflicts(row, "", e.pack))
  }

  function FailureCode(e: Evidence): string { if e.request.preflightError != "" then e.request.preflightError else "CI_FAILED" }

  function FailureMessage(e: Evidence): string {
    if e.reason != "" then e.reason else "CI Request reached terminal status " + W.RequestWord(e.request.state)
  }

  /** Asking a live row for its end from any snapshot ends it so. */
  lemma EndSettles(r: Run, snapshot: Run, phase: Phase, status: string, code: Option<string>, message: Option<string>)
    requires Earlier(snapshot, r) && Ends(phase) && (r.terminal <==> Ends(r.phase))
    ensures var r' := Settled(r, snapshot, phase, status, code, message);
            if r.terminal then r' == r
            else Needed(snapshot, phase, status, code, message) && r'.phase == phase && r'.errorCode == code && r'.errorMessage == message
                 && r'.attestation == r.attestation && r'.identity == r.identity
  {
    hide Name;
  }

  /** Asking for a phase before the end moves a live row there or leaves it further on, and never ends it. */
  lemma StepSettles(r: Run, snapshot: Run, phase: Phase, status: string, code: Option<string>, message: Option<string>)
    requires Earlier(snapshot, r) && !Ends(phase) && (r.terminal <==> Ends(r.phase))
    ensures var r' := Settled(r, snapshot, phase, status, code, message);
            && r'.identity == r.identity && r'.attestation == r.attestation
            && (r'.phase == phase || r'.phase == r.phase) && (r.terminal ==> r' == r)
            && (!r.terminal ==> !r'.terminal && Rank(r'.phase) >= Rank(r.phase) && Rank(r'.phase) >= Rank(phase))
  {
    hide Name;
  }

  lemma KeepsAttestation(s: System, runs: Runs, id: RunId, snapshot: Run)
    requires Knows(s, runs, id, snapshot) && snapshot.attestation.Some?
    ensures id in runs && runs[id].attestation == snapshot.attestation
  {
    hide RowsOk, Unique;
  }

  lemma AttestationStays(r: Run, s: Run)
    requires Earlier(r, s) && r.attestation.Some?
    ensures s.attestation == r.attestation
  {
  }

  /** Whoever knows a row that asks for no end any more knows that the run has ended. */
  lemma EndIsReached(s: System, runs: Runs, id: RunId, row: Run, phase: Phase, status: string, code: Option<string>,
                     message: Option<string>)
    requires Knows(s, runs, id, row) && Ends(phase) && !Needed(row, phase, status, code, message)
    ensures id in runs && runs[id].terminal
  {
    KnowsTheRow(s, runs, id, row);
    hide Knows, StatusOf;
  }

  lemma AsksForOthers(turns: seq<Turn>, id: RunId, phase: Phase)
    requires OnlyAsksFor(turns, id, phase) && !phase.Passed?
    ensures !AsksToPass(turns)
  {
  }

  /** A later request of a driver: others act first. */
  method LaterTransition(store: Store, id: RunId, snapshot: Run, phase: Phase, status: string,
                         code: Option<string>, message: Option<string>, ghost s: System)
    returns (result: Option<Run>, ghost turns: seq<Turn>, ghost t: System)
    requires Knows(s, store.runs, id, snapshot) && MayAsk(snapshot, phase)
    modifies store
    ensures id in old(store.runs) && id in store.runs && (!phase.Passed? ==> !AsksToPass(turns))
    ensures Follows(s, turns, t, store.runs, id, if result.Some? then result.value else snapshot)
    ensures result.Some? ==> !Needed(result.value, phase, status, code, message) && Earlier(snapshot, result.value)
    ensures Undisturbed(s, turns, id) ==>
              && result == Some(if Needed(snapshot, phase, status, code, message) then store.runs[id] else snapshot)
              && store.runs[id] == Settled(old(store.runs)[id], snapshot, phase, status, code, message)
  {
    hide Inv, Follows, After, CanRun, Settled, Needed, Undisturbed, Next, OnlyAsksFor, PassMove, Earlier;
    turns, t := OthersAct(store, id, snapshot, s);
    TheirsDoNotAsk(turns);
    ghost var was, before, more := store.runs, t, [];
    ghost var k, read;
    result, more, t, k, read := TransitionIfNeeded(store, id, snapshot, phase, status, code, message, before);
    if !phase.Passed? { AsksForOthers(more, id, phase); }
    Joined(s, turns, before, more, t, was, snapshot, store.runs, id, if result.Some? then result.value else snapshot);
    turns := turns + more;
  }

  /** The last two transitions of a run whose evidence is complete. */
  method PassRun(store: Store, id: RunId, snapshot: Run, ghost s: System)
    returns (result: Option<Run>, ghost turns: seq<Turn>, ghost t: System)
    requires Knows(s, store.runs, id, snapshot) && snapshot.attestation.Some?
    modifies store
    ensures id in old(store.runs) && id in store.runs
    ensures Follows(s, turns, t, store.runs, id, if result.Some? then result.value else snapshot)
    ensures result.Some? ==> store.runs[id].terminal
    ensures Undisturbed(s, turns, id) ==>
              result.Some?
              && var r, r' := old(store.runs)[id], store.runs[id];
                 if r.terminal then r' == r else r'.phase.Passed? && r'.attestation == r.attestation
  {
    hide Inv, Follows, After, CanRun, Settled, Earlier, Needed, Undisturbed, Next, AsksToPass;
    KnowsTheRow(s, store.runs, id, snapshot);
    StepSettles(store.runs[id], snapshot, PostCi, "finalizing", None, None);
    result, turns, t := LaterTransition(store, id, snapshot, PostCi, "finalizing", None, None, s);
    Known(s, turns, t, store.runs, id, if result.Some? then result.value else snapshot);
    if result.None? { return; }
    var ready := result.value;
    KeepsAttestation(t, store.runs, id, snapshot);
    KnowsTheRow(t, store.runs, id, ready);
    EndSettles(store.runs[id], ready, Passed, "passed", None, None);
    AttestationStays(snapshot, ready);
    ghost var was, before, more := store.runs, t, [];
    result, more, t := LaterTransition(store, id, ready, Passed, "passed", None, None, before);
    Joined(s, turns, before, more, t, was, ready, store.runs, id, if result.Some? then result.value else ready);
    turns := turns + more;
    if result.Some? {
      Known(s, turns, t, store.runs, id, result.value);
      EndIsReached(t, store.runs, id, result.value, Passed, "passed", None, None);
    } else {
      StillKnows(s, turns, t, store.runs, id, ready, snapshot);
    }
  }

  lemma RecordingKeeps(r: Run, attestation: string, pack: string)
    ensures var r' := Recorded(r, attestation, pack);
            r'.identity == r.identity && r'.phase == r.phase && r'.terminal == r.terminal && r'.analysis == r.analysis
  {
  }

  method FailRun(store: Store, id: RunId, snapshot: Run, e: Evidence, ghost s: System)
    returns (result: Option<Run>, ghost turns: seq<Turn>, ghost t: System)
    requires Knows(s, store.runs, id, snapshot) && e.request.state.Ended? && !DidPass(e)
    modifies store
    ensures id in old(store.runs) && id in store.runs && !AsksToPass(turns)
    ensures Follows(s, turns, t, store.runs, id, if result.Some? then result.value else store.runs[id])
    ensures result.Some? ==> store.runs[id].terminal
    ensures Undisturbed(s, turns, id) ==>
              var r, r' := old(store.runs)[id], store.runs[id];
              && (result.None? <==> !MayFail(snapshot, r, e))
              && if r.terminal || !MayFail(snapshot, r, e) then r'.phase == r.phase
                 else r'.phase.Failed? && r'.errorCode == Some(FailureCode(e)) && r'.errorMessage == Some(FailureMessage(e))
  {
    hide Inv, Follows, After, CanRun, Settled, Earlier, Recorded, FailureMessage, FailureCode, Holds, EvidenceConflicts, Needed,
         Undisturbed, Next, AsksToPass;
    KnowsTheRow(s, store.runs, id, snapshot);
    NoStep(s, store.runs, id, snapshot);
    NoTurns();
    result, turns, t := Some(snapshot), [], s;
    if e.pack != "" {
      RecordingKeeps(store.runs[id], "", e.pack);
      var lost;
      ghost var k, read;
      result, lost, turns, t, k, read := RecordEvidenceIfNeeded(store, id, snapshot, "", e.pack, s);
      if result.None? { return; }
    }
    var kept := result.value;
    Known(s, turns, t, store.runs, id, kept);
    KnowsTheRow(t, store.runs, id, kept);
    EndSettles(store.runs[id], kept, Failed, "failed", Some(FailureCode(e)), Some(FailureMessage(e)));
    ghost var was, before, more := store.runs, t, [];
    result, more, t := LaterTransition(store, id, kept, Failed, "failed", Some(FailureCode(e)), Some(FailureMessage(e)), before);
    Joined(s, turns, before, more, t, was, kept, store.runs, id, if result.Some? then result.value else kept);
    turns := turns + more;
    Known(s, turns, t, store.runs, id, if result.Some? then result.value else kept);
    if result.Some? {
      EndIsReached(t, store.runs, id, result.value, Failed, "failed", Some(FailureCode(e)), Some(FailureMessage(e)));
    } else {
      KnowsCurrent(s, turns, t, store.runs, id, kept);
    }
  }

  method PassOrWait(store: Store, id: RunId, snapshot: Run, e: Evidence, ghost s: System)
    returns (result: Option<Run>, ghost turns: seq<Turn>, ghost t: System)
    requires Knows(s, store.runs, id, snapshot) && DidPass(e)
    modifies store
    ensures id in old(store.runs) && id in store.runs
    ensures Follows(s, turns, t, store.runs, id, if result.Some? then result.value else store.runs[id])
    ensures AsksToPass(turns) ==> Complete(e, snapshot.identity) && SeenReady(t, id, e)
    ensures AsksToPass(turns) && result.Some? ==> store.runs[id].terminal
    ensures Undisturbed(s, turns, id) ==>
              var r, r' := old(store.runs)[id], store.runs[id];
              && (result.None? ==> r'.phase == r.phase)
              && if r.terminal then r'.phase == r.phase
                 else if MayPass(snapshot, r, e) then r'.phase.Passed? && r'.attestation == Some(AttestationOf(e))
                 else !Ends(r'.phase) && (result.Some? ==> r'.phase.PostCi?)
  {
    hide Inv, Follows, After, CanRun, Settled, Earlier, Recorded, Holds, EvidenceConflicts, SyncAccepts, AllReady, Needed,
         Undisturbed, Next, AsksToPass, SeenReady;
    KnowsTheRow(s, store.runs, id, snapshot);
    RecordingKeeps(store.runs[id], AttestationOf(e), e.pack);
    var lost;
    ghost var k, read;
    result, lost, turns, t, k, read := RecordEvidenceIfNeeded(store, id, snapshot, AttestationOf(e), e.pack, s);
    if result.None? { return; }
    var kept := result.value;
    Known(s, turns, t, store.runs, id, kept);
    KnowsTheRow(t, store.runs, id, kept);
    StillKnows(s, turns, t, store.runs, id, kept, snapshot);
    Known(s, turns, t, store.runs, id, snapshot);
    KnowsTheRow(t, store.runs, id, snapshot);
    ghost var was, before, more := store.runs, t, [];
    if !(e.indexReady && !e.analysisPending && !e.analysisDegraded && AllReady(kept.analysis)) {
      var status := if e.analysisDegraded then "degraded" else "pending";
      StepSettles(store.runs[id], kept, PostCi, status, None, None);
      result, more, t := LaterTransition(store, id, kept, PostCi, status, None, None, before);
    } else if !SyncAccepts(e, kept.identity) {
      KnowsCurrent(s, turns, t, store.runs, id, kept);
      return None, turns, t;
    } else {
      SyncNeedsAttestation(e, kept.identity);
      KeepsAttestation(t, store.runs, id, kept);
      ghost var view := kept;
      result, more, t := PassRun(store, id, kept, before);
      Known(before, more, t, store.runs, id, if result.Some? then result.value else kept);
      ReadyIsSeen(t, id, view, e);
    }
    Joined(s, turns, before, more, t, was, kept, store.runs, id, if result.Some? then result.value else kept);
    turns := turns + more;
    if result.None? { KnowsCurrent(s, turns, t, store.runs, id, kept); }
  }

  lemma ReadyIsSeen(t: System, id: RunId, r: Run, e: Evidence)
    requires (id, r) in t.seen && AllReady(r.analysis) && r.attestation == Some(AttestationOf(e))
    ensures SeenReady(t, id, e)
  {
  }

  /**
   From any snapshot, current or stale, and whatever others do: the driver asks for passed only with complete
   evidence and a ready analysis it has read. Undisturbed, a live run is passed exactly when `MayPass` holds
   and failed exactly when `MayFail` does, whatever the mode, and a terminal run keeps its phase.
   */
  method FinalizeCiState(store: Store, id: RunId, mode: Mode, snapshot: Run, e: Evidence, ghost s: System)
    returns (result: Option<Run>, ghost turns: seq<Turn>, ghost t: System)
    requires Knows(s, store.runs, id, snapshot)
    modifies store
    ensures id in old(store.runs) && id in store.runs
    ensures Follows(s, turns, t, store.runs, id, if result.Some? then result.value else store.runs[id])
    ensures AsksToPass(turns) ==> Complete(e, snapshot.identity) && SeenReady(t, id, e)
    ensures result.Some? && (AsksToPass(turns) || (e.request.state.Ended? && !DidPass(e))) ==> store.runs[id].terminal
    ensures Undisturbed(s, turns, id) ==>
              var r, r' := old(store.runs)[id], store.runs[id];
              && (r.terminal || result.None? ==> r'.phase == r.phase)
              && (!r.terminal ==>
                  && (r'.phase.Passed? <==> MayPass(snapshot, r, e))
                  && (r'.phase.Failed? <==> MayFail(snapshot, r, e))
                  && !r'.phase.Blocked?
                  && (r'.phase.Passed? ==> r'.attestation == Some(AttestationOf(e)))
                  && (r'.phase.Failed? ==>
                      && r'.errorCode == Some(if e.request.preflightError != "" then e.request.preflightError else "CI_FAILED")
                      && r'.errorMessage == Some(if e.reason != "" then e.reason
                                                 else "CI Request reached terminal status " + W.RequestWord(e.request.state)))
                  && (result.Some? && DidPass(e) && !r'.phase.Passed? ==> r'.phase.PostCi?))
              && (!e.request.state.Ended? && r'.phase != r.phase ==>
                  r'.phase == if e.request.state.Executing? then CiRunning else CiRequested)
  {
    hide Inv, Follows, After, CanRun, Settled, Earlier, SyncAccepts, AllReady, EvidenceConflicts, NothingToRecord, W.RequestWord, Needed,
         Undisturbed, Next, AsksToPass, OnlyAsksFor, SeenReady;
    KnowsTheRow(s, store.runs, id, snapshot);
    if e.request.state.Ended? && !(DidPass(e) && mode.Full? && AttestationOf(e) == "") {
      if DidPass(e) {
        result, turns, t := PassOrWait(store, id, snapshot, e, s);
      } else {
        result, turns, t := FailRun(store, id, snapshot, e, s);
      }
      return;
    }
    SyncNeedsAttestation(e, store.runs[id].identity);
    var phase := if e.request.state.Ended? then PostCi else if e.request.state.Executing? then CiRunning else CiRequested;
    var status := if e.request.state.Ended? then "pending" else W.RequestWord(e.request.state);
    StepSettles(store.runs[id], snapshot, phase, status, None, None);
    ghost var k, read;
    result, turns, t, k, read := TransitionIfNeeded(store, id, snapshot, phase, status, None, None, s);
    AsksForOthers(turns, id, phase);
    if result.None? { KnowsCurrent(s, turns, t, store.runs, id, snapshot); }
  }

  /**
   Readiness is that of the view: whenever a live run with its evidence recorded is about to pass, another
   caller can take the readiness of any stage back, and the first caller's snapshot passes the run all the same.
   */
  lemma StaleReadinessPasses(s: System, id: RunId, e: Evidence, stage: Stage, row: StageRow)
    requires Inv(s) && id in s.runs && !s.runs[id].terminal && Holds(s.runs[id], AttestationOf(e), e.pack)
    requires MayPass(s.runs[id], s.runs[id], e) && !row.state.Ready?
    ensures var a := DoAnalysis(id, s.runs[id].revision, stage, row);
            && Enabled(s, a) && Knows(Next(s, a), NextRuns(s.runs, a), id, s.runs[id]) && id in NextRuns(s.runs, a)
            && var r' := NextRuns(s.runs, a)[id];
               !r'.terminal && !AllReady(r'.analysis) && MayPass(s.runs[id], r', e)
  {
    hide Inv, Knows, Follows, SyncAccepts;
    var r, a := s.runs[id], DoAnalysis(id, s.runs[id].revision, stage, row);
    CurrentIsKnown(s, id);
    OneStep(s, s.runs, id, r, Theirs(a));
    Known(s, [Theirs(a)], Next(s, a), NextRuns(s.runs, a), id, r);
    var r' := NextRuns(s.runs, a)[id];
    assert r'.identity == r.identity && r'.analysis == r.analysis[stage := row];
    assert stage in r'.analysis;
  }

  // ---- _advance_ci_track ----

  datatype Track = OnTrack(run: Run) | RecoveryRequired | Refuses(outcome: Outcome)

  /** What a binding leaves alone. */
  ghost predicate OnlyBound(r: Run, r': Run) {
    && r'.identity == r.identity && r'.phase == r.phase && r'.terminal == r.terminal && r'.analysis == r.analysis
    && r'.attestation == r.attestation && r'.failurePack == r.failurePack
  }

  lemma BindingKeeps(r: Run, b: Binder)
    ensures OnlyBound(r, BoundRow(r, b))
    ensures b == BindField(CiRequest, ValueOf(b)) ==>
              && BoundRow(r, b).job == r.job
              && (BindingOn(r, b).Updated? || BindingOn(r, b).Unchanged? ==> BoundRow(r, b).request == Some(b.value))
  {
    hide Blank;
  }

  /** The Request or its Worker Job is not the run's. */
  predicate Differs(run: Run, mode: Mode, found: bool, request: R.Request) {
    || !found || !FitsRequest(request, run.identity, mode)
    || (JobOf(request) != "" && run.job.Some? && run.job != request.job)
  }

  /** A current live run gets through the track with this Request. */
  predicate TrackFits(run: Run, mode: Mode, requestId: string, found: bool, request: R.Request) {
    && (run.request.Some? || !Blank(requestId)) && !Differs(run, mode, found, request)
    && (JobOf(request) != "" && run.job.None? ==> !Blank(JobOf(request)))
  }

  /**
   Bind the Request if none is bound, hold it against the run, and bind its Worker Job under it. `request`
   is the row of the bound Request, when it is found; `requestId` is what the creation returned. Whatever
   others do, a run gets through only with the Request that fits and its job bound.
   */
  method AdvanceCiTrack(store: Store, id: RunId, snapshot: Run, mode: Mode, requestId: string, found: bool, request: R.Request,
                        ghost s: System)
    returns (track: Track, ghost turns: seq<Turn>, ghost t: System)
    requires Knows(s, store.runs, id, snapshot)
    modifies store
    ensures id in old(store.runs) && id in store.runs && !AsksToPass(turns)
    ensures Follows(s, turns, t, store.runs, id, if track.OnTrack? then track.run else snapshot)
    ensures track.OnTrack? ==>
              && found && FitsRequest(request, snapshot.identity, mode) && track.run.request.Some?
              && (JobOf(request) != "" ==> track.run.job == request.job)
    ensures track == Refuses(RevisionMismatch) ==> !Undisturbed(s, turns, id)
    ensures Undisturbed(s, turns, id) ==>
              && OnlyBound(old(store.runs)[id], store.runs[id])
              && (snapshot == old(store.runs)[id] && !snapshot.terminal ==>
                  && (track.OnTrack? <==> TrackFits(snapshot, mode, requestId, found, request))
                  && (track.OnTrack? ==> track.run == store.runs[id])
                  && (track.RecoveryRequired? <==>
                      (snapshot.request.Some? || !Blank(requestId)) && Differs(snapshot, mode, found, request)))
  {
    hide Inv, Follows, After, CanRun, Earlier, FitsRequest, Blank, BoundRow, Undisturbed, Next, AsksToPass, RowOk;
    KnowsTheRow(s, store.runs, id, snapshot);
    NoStep(s, store.runs, id, snapshot);
    NoTurns();
    var run := snapshot;
    turns, t := [], s;
    var outcome;
    ghost var k, read;
    if snapshot.request.None? {
      var b := BindField(CiRequest, requestId);
      BindingKeeps(store.runs[id], b);
      outcome, turns, t, k, read := BindWithReplay(store, id, snapshot, b, s);
      StillKnows(s, turns, t, store.runs, id, store.runs[id], snapshot);
      if !outcome.Updated? && !outcome.Unchanged? { return Refuses(outcome), turns, t; }
      run := store.runs[id];
    }
    SameIdentityKnown(s, turns, t, store.runs, id, snapshot, run);
    if !found || !FitsRequest(request, run.identity, mode) { return RecoveryRequired, turns, t; }
    if JobOf(request) != "" {
      if run.job.None? {
        var b := BindJobOf(run.request.value, JobOf(request));
        ghost var was, before, more, window := store.runs, t, [], [];
        window, t := OthersAct(store, id, run, before);
        TheirsDoNotAsk(window);
        Joined(s, turns, before, window, t, was, run, store.runs, id, run);
        turns, was, before := turns + window, store.runs, t;
        KnowsTheRow(t, store.runs, id, run);
        BindingKeeps(store.runs[id], b);
        outcome, more, t, k, read := BindWithReplay(store, id, run, b, before);
        Joined(s, turns, before, more, t, was, run, store.runs, id, store.runs[id]);
        turns := turns + more;
        StillKnows(s, turns, t, store.runs, id, store.runs[id], snapshot);
        if !outcome.Updated? && !outcome.Unchanged? { return Refuses(outcome), turns, t; }
        run := store.runs[id];
      } else if run.job != request.job {
        return RecoveryRequired, turns, t;
      }
    }
    track := OnTrack(run);
  }

  lemma SameIdentityKnown(s: System, turns: seq<Turn>, t: System, runs: Runs, id: RunId, snapshot: Run, run: Run)
    requires Follows(s, turns, t, runs, id, snapshot) && id in runs && (run == snapshot || run == runs[id])
    ensures run.identity == snapshot.identity && Knows(t, runs, id, run) && Follows(s, turns, t, runs, id, run)
  {
    hide Inv, After, CanRun;
    KnowsTheRow(t, runs, id, snapshot);
  }

  // ---- The CI part of converge_task ----

  function CodeOf(o: Outcome): string {
    match o
    case RevisionMismatch => "DEVELOPMENT_CONVERGENCE_REVISION_MISMATCH"
    case StateInvalid => "DEVELOPMENT_CONVERGENCE_STATE_INVALID"
    case NotFound => "DEVELOPMENT_CONVERGENCE_NOT_FOUND"
    case _ => "DEVELOPMENT_CONVERGENCE_IDENTITY_MISMATCH"
  }

  /** A Request that fits a fast run never satisfies the evidence sync. */
  lemma FastIsNotFull(request: R.Request, n: Identity)
    ensures FitsRequest(request, n, Fast) ==> !FitsRequest(request, n, Full)
  {
    assert FAST_PROFILE[5] != FULL_PROFILE[5];
  }

  lemma SameView(r: Run, r': Run, e: Evidence)
    requires OnlyBound(r, r')
    ensures MayPass(r', r', e) <==> MayPass(r, r, e)
  {
    hide SyncAccepts, AllReady;
  }

  /**
   Observe CI once: the track, then the finalizer. A Request or job that differs blocks the run, and any other
   refusal of a binding fails it, a swap lost twice included; `message` is the text of the error raised.
   Whatever others do, passed is asked for only for a full run with all its evidence. Undisturbed and from a
   current snapshot, exactly the runs that fit the track and may pass are passed, and exactly those whose
   Request or job differs are blocked.
   */
  method ConvergeCi(store: Store, id: RunId, snapshot: Run, mode: Mode, requestId: string, found: bool, e: Evidence,
                    message: string, ghost s: System)
    returns (result: Option<Run>, track: Track, ghost turns: seq<Turn>, ghost t: System)
    requires Knows(s, store.runs, id, snapshot)
    modifies store
    ensures id in old(store.runs) && id in store.runs
    ensures Follows(s, turns, t, store.runs, id, if result.Some? then result.value else store.runs[id])
    ensures AsksToPass(turns) ==>
              && mode.Full? && found && FitsRequest(e.request, snapshot.identity, Full)
              && Complete(e, snapshot.identity) && SeenReady(t, id, e)
    ensures result.Some? && (AsksToPass(turns) || !track.OnTrack?) ==> store.runs[id].terminal
    ensures track == Refuses(RevisionMismatch) ==> !Undisturbed(s, turns, id)
    ensures Undisturbed(s, turns, id) ==>
              var r, r' := old(store.runs)[id], store.runs[id];
              && (r.terminal ==> r'.phase == r.phase)
              && (!r.terminal && r'.phase.Passed? ==>
                  && mode.Full? && found && Complete(e, snapshot.identity) && r'.attestation == Some(AttestationOf(e)))
              && (snapshot == r && !r.terminal ==>
                  && (r'.phase.Passed? <==> TrackFits(r, mode, requestId, found, e.request) && MayPass(r, r, e))
                  && (r'.phase.Blocked? <==> (r.request.Some? || !Blank(requestId)) && Differs(r, mode, found, e.request))
                  && (r'.phase.Blocked? ==> r'.errorCode == Some("DEVELOPMENT_SESSION_RECOVERY_REQUIRED")))
  {
    hide Inv, Follows, After, CanRun, Settled, Earlier, SyncAccepts, MayPass, MayFail, Complete, FitsRequest, Differs, TrackFits,
         Needed, Undisturbed, Next, AsksToPass, SeenReady, Blank;
    track, turns, t := AdvanceCiTrack(store, id, snapshot, mode, requestId, found, e.request, s);
    var row := if track.OnTrack? then track.run else snapshot;
    Known(s, turns, t, store.runs, id, row);
    KnowsTheRow(s, s.runs, id, snapshot);
    FastIsNotFull(e.request, snapshot.identity);
    SyncNeedsAttestation(e, snapshot.identity);
    CompleteNeedsSync(e, snapshot.identity);
    KnowsTheRow(t, store.runs, id, row);
    ghost var was, before, more := store.runs, t, [];
    if track.OnTrack? {
      if OnlyBound(s.runs[id], was[id]) { SameView(s.runs[id], was[id], e); }
      SameIdentityThroughout(s, t, s.runs, was, id, snapshot, row);
      MayPassIsComplete(row, was[id], e);
      ghost var window;
      window, t := OthersAct(store, id, row, before);
      TheirsDoNotAsk(window);
      Joined(s, turns, before, window, t, was, row, store.runs, id, row);
      turns, was, before := turns + window, store.runs, t;
      result, more, t := FinalizeCiState(store, id, mode, track.run, e, before);
    } else if track.Refuses? && track.outcome.InvalidRequest? {
      KnowsCurrent(s, turns, t, store.runs, id, snapshot);
      result := None;
      return;
    } else {
      var phase := if track.RecoveryRequired? then Blocked else Failed;
      var status := if track.RecoveryRequired? then "blocked" else "failed";
      var code := if track.RecoveryRequired? then "DEVELOPMENT_SESSION_RECOVERY_REQUIRED" else CodeOf(track.outcome);
      EndSettles(store.runs[id], snapshot, phase, status, Some(code), Some(message));
      result, more, t := LaterTransition(store, id, snapshot, phase, status, Some(code), Some(message), before);
      Known(before, more, t, store.runs, id, if result.Some? then result.value else snapshot);
      if result.Some? {
        EndIsReached(t, store.runs, id, result.value, phase, status, Some(code), Some(message));
      } else {
        KnowsCurrent(before, more, t, store.runs, id, snapshot);
      }
    }
    Joined(s, turns, before, more, t, was, row, store.runs, id, if result.Some? then result.value else store.runs[id]);
    turns := turns + more;
  }

  lemma CompleteNeedsSync(e: Evidence, n: Identity)
    ensures Complete(e, n) ==> SyncAccepts(e, n)
  {
  }

  lemma MayPassIsComplete(snapshot: Run, row: Run, e: Evidence)
    ensures MayPass(snapshot, row, e) ==> Complete(e, row.identity)
  {
  }

  lemma SameIdentityThroughout(s: System, t: System, runs: Runs, runs': Runs, id: RunId, snapshot: Run, row: Run)
    requires Knows(s, runs, id, snapshot) && Knows(t, runs', id, row) && s.seen <= t.seen
    ensures id in runs && id in runs' && row.identity == snapshot.identity && runs'[id].identity == snapshot.identity
  {
    hide Inv;
    KnowsTheRow(t, runs', id, row);
    KnowsTheRow(t, runs', id, snapshot);
    KnowsTheRow(s, runs, id, snapshot);
  }
}
