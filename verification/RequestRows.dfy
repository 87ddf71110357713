/**
 What the rows of the Requests show when the job behind them moves: the status words, the evidence, and the
 attestation that is linked, column by column.
 */
module RequestRows {
  import opened LogStore
  import opened JobQueue
  import opened RequestStore

  // ---- Status words ----

  /** ci_jobs.status. */
  function JobWord(st: Status): string {
    match st
    case Queued => "queued"
    case Leased => "leased"
    case Downloading => "downloading"
    case Preparing => "preparing"
    case Running => "running"
    case Passed => "passed"
    case Failed => "failed"
    case TimedOut => "timed_out"
    case CancelRequested => "cancel_requested"
    case Cancelled => "cancelled"
    case WorkerLost => "worker_lost"
    case InternalError => "internal_error"
    case Superseded => "superseded"
    case Unknown(word) => word
  }

  /** ci_requests.status. */
  function RequestWord(st: State): string {
    match st
    case Accepted => "accepted"
    case Preflighting => "preparing"
    case Enqueued => "queued"
    case Executing => "running"
    case Ended(o) =>
      match o
      case DidPass => "passed"
      case DidFail => "failed"
      case DidTimeOut => "timed_out"
      case DidCancel => "cancelled"
      case DidSupersede => "superseded"
      case DidLoseWorker => "worker_lost"
      case DidBreak => "internal_error"
      case DidFailPreflight => "preflight_failed"
  }

  /** From which status a caller may move a Request to which, in the words of the columns. */
  const LEGAL: map<string, set<string>> := map[
    "accepted" := {"preparing", "cancelled", "superseded", "internal_error"},
    "preparing" := {"queued", "preflight_failed", "cancelled", "superseded", "internal_error"},
    "queued" := {"running", "cancelled", "superseded", "worker_lost", "internal_error"},
    "running" := {"passed", "failed", "timed_out", "cancelled", "superseded", "worker_lost", "internal_error"}]

  predicate Legal(from: State, to: State) { RequestWord(from) in LEGAL && RequestWord(to) in LEGAL[RequestWord(from)] }

  lemma LegalIsAllowed(from: State, to: State)
    ensures Legal(from, to) <==> Allowed(from, to)
  {
  }

  /** The job has ended, with a word of the vocabulary. */
  predicate HasEnded(st: Status) { st in {Passed, Failed, TimedOut, Cancelled, WorkerLost, InternalError, Superseded} }

  predicate IsLive(r: Request) { r.state in {Enqueued, Executing} }

  predicate OrderedFor(r: Request, job: Job) {
    && job.order.repository == r.identity.repository && job.order.branch == r.identity.branch
    && job.order.commit == r.identity.commit && job.order.profile == r.identity.profile
  }

  /** The job is for the repository, branch, commit and profile of the Request, whose tree is pinned. */
  predicate Names(r: Request, job: Job) {
    OrderedFor(r, job) && LowerHex(r.identity.tree, 40)
  }

  /** It reported no other tree, and for a pass this very tree and exit code 0. */
  predicate Proves(r: Request, job: Job) {
    && Names(r, job) && (job.tree == "" || job.tree == r.identity.tree)
    && (job.status == Passed ==> job.tree == r.identity.tree && job.exitCode == Some(0))
  }

  /** n lower-case hexadecimal digits. */
  predicate LowerHex(s: string, n: nat) { |s| == n && forall k :: 0 <= k < n ==> s[k] in "0123456789abcdef" }

  lemma HexInRows(s: string)
    ensures (IsSha(s) <==> LowerHex(s, 40)) && (IsHash(s) <==> LowerHex(s, 64))
  {
    forall c ensures c in "0123456789abcdef" <==> '0' <= c <= '9' || 'a' <= c <= 'f' {
      HexDigit(c);
    }
  }

  lemma HexDigit(c: char)
    ensures c in "0123456789abcdef" <==> '0' <= c <= '9' || 'a' <= c <= 'f'
  {
    var s := "0123456789abcdef";
    assert forall k :: 0 <= k < 10 ==> s[k] == '0' + k as char;
    assert forall k :: 10 <= k < 16 ==> s[k] == 'a' + (k - 10) as char;
    if '0' <= c <= '9' { assert s[(c - '0') as int] == c; }
    if 'a' <= c <= 'f' { assert s[10 + (c - 'a') as int] == c; }
  }

  lemma ProvesIsEvidence(r: Request, job: Job)
    ensures Proves(r, job) <==> Evidence(r, job)
  {
    HexInRows(r.identity.tree);
  }

  /** The identity a new Request must have. */
  predicate WellFormed(n: Identity, key: string, hash: string) {
    && '/' in n.repository && LowerHex(n.commit, 40) && (n.tree == "" || LowerHex(n.tree, 40)) && n.profile != ""
    && n.digest != "" && key != "" && LowerHex(hash, 64)
  }

  /** A replay names the same identity; it may leave the tree open. */
  predicate Repeats(n: Identity, row: Request, key: string, hash: string) {
    && row.idempotencyKey == key && row.hash == hash && n.repository == row.identity.repository
    && n.branch == row.identity.branch && n.commit == row.identity.commit && n.profile == row.identity.profile
    && n.digest == row.identity.digest && (n.tree == "" || n.tree == row.identity.tree)
  }

  // ---- Attestations ----

  /** The attestation is for this job and identity, was not revoked, and has not expired. */
  predicate Certified(a: Attestation, r: Request, i: JobId, now: Time) {
    && a.job == i && a.repository == r.identity.repository && a.commit == r.identity.commit && a.tree == r.identity.tree
    && a.profile == r.identity.profile && a.active && now < a.expires
  }

  /** The rows are in creation order. */
  ghost predicate NewestCertified(rows: seq<Attestation>, r: Request, i: JobId, now: Time, k: int) {
    0 <= k < |rows| && Certified(rows[k], r, i, now) && forall m :: k < m < |rows| ==> !Certified(rows[m], r, i, now)
  }

  /** A row that certifies nothing changes neither the newest certificate nor that there is one. */
  lemma NewestOfMore(rows: seq<Attestation>, r: Request, i: JobId, now: Time)
    requires rows != [] && !Certified(rows[|rows| - 1], r, i, now)
    ensures forall k :: NewestCertified(rows, r, i, now, k) ==>
              NewestCertified(rows[..|rows| - 1], r, i, now, k) && rows[..|rows| - 1][k] == rows[k]
  {
    hide Certified;
  }

  lemma {:induction false} MatchingInRows(rows: seq<Attestation>, r: Request, i: JobId, now: Time)
    ensures forall k :: NewestCertified(rows, r, i, now, k) ==> Matching(rows, r, i, now) == Some(rows[k].id)
    ensures (forall k :: 0 <= k < |rows| ==> !Certified(rows[k], r, i, now)) ==> Matching(rows, r, i, now) == None
    decreases |rows|
  {
    if rows != [] {
      var n := |rows| - 1;
      assert Attests(rows[n], r, i, now) <==> Certified(rows[n], r, i, now);
      hide Attests, Certified;
      if Certified(rows[n], r, i, now) {
        assert forall k :: NewestCertified(rows, r, i, now, k) ==> k == n;
      } else {
        MatchingInRows(rows[..n], r, i, now);
        NewestOfMore(rows, r, i, now);
        hide NewestCertified;
      }
    }
  }

  // ---- Following ----

  /**
   How a Request row r becomes r' when its job i, now this row, is replayed into it: a live Request of a job that
   has ended ends in the same word, one of a running job runs, and nothing else moves it. A live or passed one is
   linked to the newest attestation of a passed job.
   */
  ghost predicate FollowsJob(r: Request, r': Request, i: JobId, job: Job, rows: seq<Attestation>, now: Time) {
    && r' == r.(state := r'.state, revision := r'.revision, events := r'.events, attestation := r'.attestation)
    && (IsLive(r) && Proves(r, job) && HasEnded(job.status) ==>
        && r'.state.Ended? && RequestWord(r'.state) == JobWord(job.status) && r'.revision == r.revision + 1)
    && (IsLive(r) && Proves(r, job) && job.status == Running ==> r'.state == Executing)
    && (IsLive(r) && !(Proves(r, job) && (HasEnded(job.status) || (job.status == Running && r.state == Enqueued))) ==> r' == r)
    && (!IsLive(r) ==> r'.state == r.state)
    && (forall k :: (IsLive(r) || r.state == Ended(DidPass)) && Proves(r, job) && job.status == Passed
                    && NewestCertified(rows, r, i, now, k) && rows[k].id != "" ==>
        r'.attestation == Some(rows[k].id))
    && (!(exists k :: NewestCertified(rows, r, i, now, k)) ==> r'.attestation == r.attestation)
  }

  lemma ProjectionFollows(r: Request, i: JobId, job: Job, rows: seq<Attestation>, now: Time)
    ensures FollowsJob(r, Projected(r, i, job, rows, now), i, job, rows, now)
  {
    hide Proves, Evidence, Matching, Certified;
    ProvesIsEvidence(r, job);
    MatchingInRows(rows, r, i, now);
    NoneIsCertified(rows, r, i, now);
  }

  lemma {:induction false} NoneIsCertified(rows: seq<Attestation>, r: Request, i: JobId, now: Time)
    ensures !(exists k :: NewestCertified(rows, r, i, now, k)) ==> forall k :: 0 <= k < |rows| ==> !Certified(rows[k], r, i, now)
    decreases |rows|
  {
    hide Certified;
    if rows != [] {
      var n := |rows| - 1;
      if Certified(rows[n], r, i, now) {
        assert NewestCertified(rows, r, i, now, n);
      } else {
        NoneIsCertified(rows[..n], r, i, now);
        if k :| NewestCertified(rows[..n], r, i, now, k) {
          assert rows[..n][k] == rows[k];
          forall m | k < m < |rows| ensures !Certified(rows[m], r, i, now) {
            if m < n { assert rows[..n][m] == rows[m]; }
          }
          assert NewestCertified(rows, r, i, now, k);
        } else {
          forall k | 0 <= k < n ensures !Certified(rows[k], r, i, now) { assert rows[..n][k] == rows[k]; }
        }
      }
    }
  }

  /** The Requests bound to the jobs `moved` follow their rows; no other Request changes. */
  ghost predicate RequestsFollow(before: map<RequestId, Request>, after: map<RequestId, Request>, jobs: map<JobId, Job>,
                                 moved: set<JobId>, rows: seq<Attestation>, now: Time) {
    && after.Keys == before.Keys
    && forall r :: r in before ==>
       if before[r].job.Some? && before[r].job.value in moved && before[r].job.value in jobs
       then FollowsJob(before[r], after[r], before[r].job.value, jobs[before[r].job.value], rows, now)
       else after[r] == before[r]
  }

  /** Reconciling jobs makes the Requests bound to them follow. */
  lemma ReconcileInRows(db: Db, jobs: set<JobId>, now: Time)
    ensures Reconcile(db, jobs, now).queue == db.queue && Reconcile(db, jobs, now).attestations == db.attestations
    ensures RequestsFollow(db.requests, Reconcile(db, jobs, now).requests, db.queue.jobs, jobs, db.attestations, now)
  {
    hide FollowsJob, Projected;
    forall r | r in db.requests && Bound(db, r)
      ensures FollowsJob(db.requests[r], ProjectedRow(db, r, now), db.requests[r].job.value,
                         db.queue.jobs[db.requests[r].job.value], db.attestations, now)
    {
      ProjectionFollows(db.requests[r], db.requests[r].job.value, db.queue.jobs[db.requests[r].job.value], db.attestations, now);
    }
  }

  /** The startup repair lets every live Request follow its job, and every passed one that has no attestation yet. */
  lemma RepairInRows(db: Db, now: Time)
    ensures Repair(db, now).queue == db.queue && Repair(db, now).requests.Keys == db.requests.Keys
    ensures forall r :: r in db.requests ==>
              var row := db.requests[r];
              if row.job.Some? && row.job.value in db.queue.jobs && (IsLive(row) || (row.state == Ended(DidPass) && row.attestation.None?))
              then FollowsJob(row, Repair(db, now).requests[r], row.job.value, db.queue.jobs[row.job.value], db.attestations, now)
              else Repair(db, now).requests[r] == row
  {
    hide FollowsJob, Proves, Evidence;
    forall r | r in db.requests && Bound(db, r)
      ensures FollowsJob(db.requests[r], ProjectedRow(db, r, now), db.requests[r].job.value,
                         db.queue.jobs[db.requests[r].job.value], db.attestations, now)
      ensures !IsLive(db.requests[r]) && !db.requests[r].state.Ended? ==> ProjectedRow(db, r, now) == db.requests[r]
    {
      ProjectionFollows(db.requests[r], db.requests[r].job.value, db.queue.jobs[db.requests[r].job.value], db.attestations, now);
    }
  }
}
