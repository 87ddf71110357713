/**
 The lease-fenced job queue: job rows, per-repository queue rows, and every transaction that
 changes them. One transaction is one function from the tables before to the tables after.
 */
module JobQueue {
  import opened LogStore

  type JobId = string
  type Time = real

  const LEASE_SECONDS: Time := 120.0
  const DEFAULT_MAX_ATTEMPTS: nat := 2

  /** ci_jobs.status; a worker may report a word outside the vocabulary. */
  datatype Status =
    | Queued | Leased | Downloading | Preparing | Running
    | Passed | Failed | TimedOut | CancelRequested | Cancelled | WorkerLost | InternalError | Superseded
    | Unknown(word: string)

  predicate Active(st: Status) {
    st.Leased? || st.Downloading? || st.Preparing? || st.Running?
  }

  predicate Terminal(st: Status) {
    st.Passed? || st.Failed? || st.TimedOut? || st.Cancelled? || st.WorkerLost? || st.InternalError? || st.Superseded?
  }

  /** The idempotency key: derived from the commit, or scoped to one durable Request. */
  datatype JobKey = CommitKey(repository: string, commit: string, profile: string) | RequestKey(requestId: string)

  /** What a caller asks for; the identity a job keeps for life. */
  datatype Order = Order(key: JobKey, repository: string, branch: string, commit: string, profile: string, priority: int)

  /**
   One row of ci_jobs with its child rows. `releases` is the number of "released" event rows and
   `tree` the git_tree_sha of the stored summary, empty when the summary names none.
   */
  datatype Job = Job(
    order: Order, status: Status,
    worker: Option<string>, token: Option<string>, expires: Option<Time>,
    cancelRequested: bool, supersededBy: Option<JobId>,
    attempts: nat, maxAttempts: nat, releases: nat,
    exitCode: Option<int>, tree: string, source: Option<(string, int)>,
    createdAt: Time, queuedAt: Time, startedAt: Option<Time>, finishedAt: Option<Time>,
    log: JobLog)

  /** One row of ci_repository_queue_state. */
  datatype RepoRow = RepoRow(lastDispatched: Time, running: nat, queued: nat)

  /** The tables. `issued` is the history of lease tokens and `nextStep` the next step row id. */
  datatype Queue = Queue(jobs: map<JobId, Job>, repos: map<string, RepoRow>, issued: set<string>, nextStep: nat)

  const START := Queue(map[], map[], {}, 0)

  // ---- Row updates ----

  function Clamped(x: nat, delta: int): nat { Max(0, x + delta) }

  function Row(repos: map<string, RepoRow>, r: string): RepoRow {
    if r in repos then repos[r] else RepoRow(0.0, 0, 0)
  }

  /** _upsert_repo_queue_state; the counters never go below zero. */
  function Upsert(repos: map<string, RepoRow>, r: string, queued: int, running: int,
                  dispatched: Option<Time>): map<string, RepoRow> {
    var row := Row(repos, r);
    repos[r := RepoRow(if dispatched.Some? then dispatched.value else row.lastDispatched,
                       Clamped(row.running, running), Clamped(row.queued, queued))]
  }

  function Unleased(job: Job, st: Status): Job {
    job.(status := st, worker := None, token := None, expires := None)
  }

  function NewJob(order: Order, ts: Time): Job {
    Job(order, Queued, None, None, None, false, None, 0, DEFAULT_MAX_ATTEMPTS, 0, None, "", None, ts, ts, None, None, EMPTY)
  }

  // ---- Creation ----

  predicate Reusable(q: Queue, key: JobKey, i: JobId) {
    i in q.jobs && q.jobs[i].order.key == key
    && (q.jobs[i].status.Queued? || Active(q.jobs[i].status) || q.jobs[i].status.Passed?)
  }

  /** The row the idempotency read returns: a newest reusable one. */
  predicate NewestReusable(q: Queue, key: JobKey, i: JobId) {
    Reusable(q, key, i) && forall k :: k in q.jobs && Reusable(q, key, k) ==> q.jobs[k].createdAt <= q.jobs[i].createdAt
  }

  /** The queued jobs of the same repository, branch and profile that a new order replaces. */
  function Replaced(q: Queue, order: Order): set<JobId> {
    set i | i in q.jobs && q.jobs[i].status.Queued? && q.jobs[i].order.key != order.key
            && q.jobs[i].order.repository == order.repository && q.jobs[i].order.branch == order.branch
            && q.jobs[i].order.profile == order.profile
  }

  function Supersede(q: Queue, rows: set<JobId>, successor: JobId, repository: string, ts: Time): Queue {
    q.(jobs := map i | i in q.jobs :: if i in rows
                 then Unleased(q.jobs[i], Superseded).(supersededBy := Some(successor), finishedAt := Some(ts)) else q.jobs[i],
       repos := if rows == {} then q.repos else Upsert(q.repos, repository, -|rows|, 0, None))
  }

  function Insert(q: Queue, id: JobId, order: Order, ts: Time): Queue {
    q.(jobs := q.jobs[id := NewJob(order, ts)], repos := Upsert(q.repos, order.repository, 1, 0, None))
  }

  /** _create_or_get_job_in_transaction: reuse, or supersede and insert; a taken id rolls back. */
  function CreateOrGet(q: Queue, id: JobId, order: Order, force: bool, supersede: bool, ts: Time): Queue {
    if !force && exists i :: i in q.jobs && Reusable(q, order.key, i) then q
    else if id in q.jobs then q
    else Insert(if supersede then Supersede(q, Replaced(q, order), id, order.repository, ts) else q, id, order, ts)
  }

  // ---- Leasing ----

  function OwnedBy(q: Queue, w: string): set<JobId> {
    set i | i in q.jobs && Active(q.jobs[i].status) && q.jobs[i].worker == Some(w)
  }

  predicate Takeable(q: Queue, profiles: seq<string>, i: JobId) {
    i in q.jobs && q.jobs[i].status.Queued? && q.jobs[i].order.profile in profiles
  }

  function LastDispatched(q: Queue, i: JobId): Time
    requires i in q.jobs
  {
    Row(q.repos, q.jobs[i].order.repository).lastDispatched
  }

  /** ORDER BY priority DESC, repo_last_dispatched ASC, created_at ASC: i is not after k. */
  predicate NotAfter(q: Queue, i: JobId, k: JobId)
    requires i in q.jobs && k in q.jobs
  {
    var a, b := q.jobs[i], q.jobs[k];
    if a.order.priority != b.order.priority then a.order.priority > b.order.priority
    else if LastDispatched(q, i) != LastDispatched(q, k) then LastDispatched(q, i) < LastDispatched(q, k)
    else a.createdAt <= b.createdAt
  }

  /** A row the scheduling query may return; the query leaves the choice among equals open. */
  predicate IsPick(q: Queue, profiles: seq<string>, i: JobId) {
    Takeable(q, profiles, i) && forall k :: k in q.jobs && Takeable(q, profiles, k) ==> NotAfter(q, i, k)
  }

  function LeaseTo(q: Queue, i: JobId, w: string, token: string, ts: Time): Queue
    requires i in q.jobs
  {
    var job := q.jobs[i];
    q.(jobs := q.jobs[i := job.(status := Leased, worker := Some(w), token := Some(token),
                                expires := Some(ts + LEASE_SECONDS), attempts := job.attempts + 1, startedAt := Some(ts))],
       repos := Upsert(q.repos, job.order.repository, -1, 1, Some(ts)),
       issued := q.issued + {token})
  }

  // ---- Worker callbacks ----

  /** _begin_job_write: the caller still owns the current, unexpired attempt. */
  predicate Fence(q: Queue, i: JobId, w: string, token: string, ts: Time) {
    && w != "" && token != ""
    && i in q.jobs && q.jobs[i].worker == Some(w) && q.jobs[i].token == Some(token)
    && q.jobs[i].expires.Some? && q.jobs[i].expires.value > ts && Active(q.jobs[i].status)
  }

  datatype Callback =
    | WriteLog(op: LogOp)
    | AddStepRow(name: string, stepStatus: string)
    | SetStatus(status: Status)
    | SourceDownloaded(sha256: string, size: int)
    | Release
    | Complete(exitCode: int, final: Status, tree: string)

  function ApplyCallback(q: Queue, i: JobId, ts: Time, cb: Callback): Queue
    requires i in q.jobs
  {
    var job := q.jobs[i];
    match cb
    case WriteLog(op) =>
      if op.StartStep? then q else q.(jobs := q.jobs[i := job.(log := Apply(job.log, op))])
    case AddStepRow(name, st) =>
      q.(jobs := q.jobs[i := job.(log := AddStep(job.log, q.nextStep, name, st))], nextStep := q.nextStep + 1)
    case SetStatus(st) =>
      if st.Running? && !job.status.Downloading? && !job.status.Preparing? then q
      else q.(jobs := q.jobs[i := job.(status := st)])
    case SourceDownloaded(sha, size) =>
      q.(jobs := q.jobs[i := job.(source := Some((sha, size)), status := Downloading)])
    case Release =>
      q.(jobs := q.jobs[i := Unleased(job, Queued).(queuedAt := ts, releases := job.releases + 1)],
         repos := Upsert(q.repos, job.order.repository, 1, -1, None))
    case Complete(exitCode, final, tree) =>
      q.(jobs := q.jobs[i := Unleased(job, final).(exitCode := Some(exitCode), tree := tree, finishedAt := Some(ts))],
         repos := Upsert(q.repos, job.order.repository, 0, -1, None))
  }

  /** A callback under its fence; a stale one is rolled back. */
  function Call(q: Queue, i: JobId, w: string, token: string, ts: Time, cb: Callback): Queue {
    if Fence(q, i, w, token, ts) then ApplyCallback(q, i, ts, cb) else q
  }

  /** renew_lease; an empty worker id matches any owner. */
  predicate Renewable(q: Queue, i: JobId, token: string, w: string, ts: Time) {
    && token != "" && i in q.jobs && q.jobs[i].token == Some(token)
    && q.jobs[i].expires.Some? && q.jobs[i].expires.value > ts && Active(q.jobs[i].status)
    && (w == "" || q.jobs[i].worker == Some(w))
  }

  function Renew(q: Queue, i: JobId, token: string, w: string, ts: Time): Queue {
    if Renewable(q, i, token, w, ts)
    then q.(jobs := q.jobs[i := q.jobs[i].(expires := Some(ts + LEASE_SECONDS))]) else q
  }

  // ---- Cancellation and recovery ----

  function RequestCancel(q: Queue, i: JobId): Queue {
    if i in q.jobs && Active(q.jobs[i].status) then q.(jobs := q.jobs[i := q.jobs[i].(cancelRequested := true)]) else q
  }

  function CancelQueued(q: Queue, i: JobId, ts: Time): Queue {
    if i in q.jobs && q.jobs[i].status.Queued?
    then q.(jobs := q.jobs[i := Unleased(q.jobs[i], Cancelled).(finishedAt := Some(ts))],
            repos := Upsert(q.repos, q.jobs[i].order.repository, -1, 0, None))
    else q
  }

  /** A lost attempt goes back to the queue while attempts remain. */
  function Recovered(job: Job, ts: Time): Job {
    if job.attempts >= job.maxAttempts then Unleased(job, WorkerLost).(finishedAt := Some(ts))
    else Unleased(job, Queued).(queuedAt := ts)
  }

  predicate Requeues(job: Job) { job.attempts < job.maxAttempts }

  function InRepo(q: Queue, rows: set<JobId>, r: string): set<JobId> {
    set i | i in rows && i in q.jobs && q.jobs[i].order.repository == r
  }

  function Requeued(q: Queue, rows: set<JobId>): set<JobId> {
    set i | i in rows && i in q.jobs && Requeues(q.jobs[i])
  }

  /** Recover a set of rows, moving each from running to queued or to the end. */
  function RecoverRows(q: Queue, rows: set<JobId>, ts: Time): Queue {
    var touched := set i | i in rows && i in q.jobs :: q.jobs[i].order.repository;
    q.(jobs := map i | i in q.jobs :: if i in rows then Recovered(q.jobs[i], ts) else q.jobs[i],
       repos := map r | r in q.repos.Keys + touched ::
         var row := Row(q.repos, r);
         row.(running := Clamped(row.running, -|InRepo(q, rows, r)|),
              queued := Clamped(row.queued, |InRepo(q, Requeued(q, rows), r)|)))
  }

  function Expired(q: Queue, ts: Time): set<JobId> {
    set i | i in q.jobs && Active(q.jobs[i].status) && q.jobs[i].expires.Some? && q.jobs[i].expires.value < ts
  }

  /** cleanup_old_jobs: finished rows disappear with their children. */
  function Cleanup(q: Queue, cutoff: Time): Queue {
    q.(jobs := map i | i in q.jobs && !(q.jobs[i].finishedAt.Some? && q.jobs[i].finishedAt.value < cutoff) :: q.jobs[i])
  }

  // ---- The transition system ----

  datatype Action =
    | DoCreate(id: JobId, order: Order, force: bool, supersede: bool, now: Time)
    | DoLease(id: JobId, worker: string, profiles: seq<string>, maxConcurrent: int, token: string, now: Time)
    | DoRenew(id: JobId, worker: string, token: string, now: Time)
    | DoCall(id: JobId, worker: string, token: string, now: Time, cb: Callback)
    | DoRequestCancel(id: JobId, now: Time)
    | DoCancelQueued(id: JobId, now: Time)
    | DoRecoverExpired(now: Time)
    | DoRecoverWorker(worker: string, now: Time)
    | DoCleanup(cutoff: Time, now: Time)

  /** What the scheduler and the token generator guarantee; every other call is always possible. */
  ghost predicate Enabled(q: Queue, a: Action) {
    a.DoLease? ==>
      && |OwnedBy(q, a.worker)| < a.maxConcurrent
      && IsPick(q, a.profiles, a.id)
      && a.token !in q.issued && a.token != ""
  }

  function Next(q: Queue, a: Action): Queue
    requires a.DoLease? ==> a.id in q.jobs
  {
    match a
    case DoCreate(id, order, force, supersede, now) => CreateOrGet(q, id, order, force, supersede, now)
    case DoLease(id, w, profiles, limit, token, now) => LeaseTo(q, id, w, token, now)
    case DoRenew(id, w, token, now) => Renew(q, id, token, w, now)
    case DoCall(id, w, token, now, cb) => Call(q, id, w, token, now, cb)
    case DoRequestCancel(id, now) => RequestCancel(q, id)
    case DoCancelQueued(id, now) => CancelQueued(q, id, now)
    case DoRecoverExpired(now) => RecoverRows(q, Expired(q, now), now)
    case DoRecoverWorker(w, now) => RecoverRows(q, OwnedBy(q, w), now)
    case DoCleanup(cutoff, now) => Cleanup(q, cutoff)
  }

  /**
   The words a worker should report: a live phase while it runs, an outcome when it completes.
   The code checks neither.
   */
  predicate WellReported(a: Action) {
    a.DoCall? ==>
      && (a.cb.SetStatus? ==> Active(a.cb.status))
      && (a.cb.Complete? ==> !Active(a.cb.final) && !a.cb.final.Queued?)
  }
}
