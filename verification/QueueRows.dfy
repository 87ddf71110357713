/**
 What the rows of the job queue show, column by column: which job a lease takes, which jobs a creation reuses
 or replaces, who may renew. Nothing here is stated through the order or the guards of the transactions.
 */
module QueueRows {
  import opened LogStore
  import opened JobQueue
  import opened QueueRuns

  /** The four states of a job that a worker holds. */
  predicate InWork(st: Status) { st in {Leased, Downloading, Preparing, Running} }

  predicate InQueue(job: Job, profiles: seq<string>) { job.status == Queued && job.order.profile in profiles }

  function LastServed(repos: map<string, RepoRow>, job: Job): Time {
    if job.order.repository in repos then repos[job.order.repository].lastDispatched else 0.0
  }

  // ---- The order of leases ----

  /**
   No job in the queue has a higher priority than i; none of its priority belongs to a repository dispatched
   earlier; none equal in both was created earlier.
   */
  ghost predicate FirstInLine(q: Queue, profiles: seq<string>, i: JobId) {
    i in q.jobs && InQueue(q.jobs[i], profiles)
    && forall k :: k in q.jobs && InQueue(q.jobs[k], profiles) ==>
      var a, b := q.jobs[i], q.jobs[k];
      && b.order.priority <= a.order.priority
      && (b.order.priority == a.order.priority ==> LastServed(q.repos, a) <= LastServed(q.repos, b))
      && (b.order.priority == a.order.priority && LastServed(q.repos, b) == LastServed(q.repos, a) ==> a.createdAt <= b.createdAt)
  }

  lemma PickIsFirstInLine(q: Queue, profiles: seq<string>, i: JobId)
    requires IsPick(q, profiles, i)
    ensures FirstInLine(q, profiles, i)
  {
    forall k | k in q.jobs && InQueue(q.jobs[k], profiles) ensures NotAfter(q, i, k) {
      assert Takeable(q, profiles, k);
    }
  }

  /** A lease that could have taken job k and goes to the same repository at the same priority. */
  predicate PassesOver(q: Queue, a: Action, k: JobId)
    requires a.DoLease? ==> a.id in q.jobs
  {
    a.DoLease? && k in q.jobs && InQueue(q.jobs[k], a.profiles)
    && q.jobs[a.id].order.repository == q.jobs[k].order.repository
    && q.jobs[a.id].order.priority == q.jobs[k].order.priority
  }

  /** Every lease of the run takes a first job, and none passes over k for a job created after `created`. */
  ghost predicate InOrder(q: Queue, acts: seq<Action>, k: JobId, created: Time)
    decreases |acts|
  {
    acts == [] || (&& (acts[0].DoLease? ==> FirstInLine(q, acts[0].profiles, acts[0].id))
                   && (acts[0].DoLease? && PassesOver(q, acts[0], k) ==> q.jobs[acts[0].id].createdAt <= created)
                   && (acts[0].DoLease? ==> acts[0].id in q.jobs)
                   && InOrder(Next(q, acts[0]), acts[1..], k, created))
  }

  lemma NextKeepsBirth(q: Queue, a: Action, i: JobId)
    requires Enabled(q, a) && i in q.jobs && i in Next(q, a).jobs
    ensures Next(q, a).jobs[i].createdAt == q.jobs[i].createdAt && Next(q, a).jobs[i].order == q.jobs[i].order
  {
    hide Upsert, NotAfter, Reusable, AddStep, Apply;
  }

  /**
   Over any run every lease takes the first job in line, and as long as job k waits, each lease that passes over
   it for its own repository and priority takes a job that was created no later.
   */
  lemma {:induction false} OldestIsLeasedFirst(q: Queue, acts: seq<Action>, k: JobId)
    requires CanRun(q, acts) && NoCleanup(acts) && k in q.jobs
    ensures InOrder(q, acts, k, q.jobs[k].createdAt)
    decreases |acts|
  {
    hide Next, NotAfter, IsPick;
    if acts != [] {
      var a := acts[0];
      assert !a.DoCleanup?;
      RowStays(q, a, k);
      NextKeepsBirth(q, a, k);
      if a.DoLease? {
        PickIsFirstInLine(q, a.profiles, a.id);
        if PassesOver(q, a, k) { PassedIsYounger(q, a, k); }
      }
      OldestIsLeasedFirst(Next(q, a), acts[1..], k);
    }
  }

  lemma PassedIsYounger(q: Queue, a: Action, k: JobId)
    requires a.DoLease? && a.id in q.jobs && FirstInLine(q, a.profiles, a.id) && PassesOver(q, a, k)
    ensures q.jobs[a.id].createdAt <= q.jobs[k].createdAt
  {
  }

  lemma RowStays(q: Queue, a: Action, i: JobId)
    requires Enabled(q, a) && !a.DoCleanup? && i in q.jobs
    ensures i in Next(q, a).jobs
  {
    hide Upsert, NotAfter, Reusable, AddStep, Apply;
  }

  // ---- Renewal ----

  /** The holder of a live attempt can renew it until it expires, and nobody else can. */
  lemma HolderRenews(q: Queue, i: JobId, token: string, w: string, ts: Time)
    ensures var held := && token != "" && i in q.jobs && InWork(q.jobs[i].status) && q.jobs[i].token == Some(token)
                        && (w == "" || q.jobs[i].worker == Some(w)) && q.jobs[i].expires.Some? && ts < q.jobs[i].expires.value;
            Renew(q, i, token, w, ts) == if held then q.(jobs := q.jobs[i := q.jobs[i].(expires := Some(ts + 120.0))]) else q
  {
  }

  /** Each renewal reads the clock before the deadline the last one set. */
  predicate InTime(times: seq<Time>, deadline: Time)
    decreases |times|
  {
    times == [] || (times[0] < deadline && InTime(times[1..], times[0] + 120.0))
  }

  function Renewed(q: Queue, i: JobId, token: string, w: string, times: seq<Time>): Queue
    decreases |times|
  {
    if times == [] then q else Renewed(Renew(q, i, token, w, times[0]), i, token, w, times[1..])
  }

  /** A worker that renews within 120 seconds of its lease and of each renewal keeps the job as long as it likes. */
  lemma {:induction false} RenewingKeepsTheLease(q: Queue, i: JobId, token: string, w: string, times: seq<Time>, deadline: Time)
    requires i in q.jobs && InWork(q.jobs[i].status) && token != "" && w != ""
    requires q.jobs[i].token == Some(token) && q.jobs[i].worker == Some(w) && q.jobs[i].expires == Some(deadline)
    requires InTime(times, deadline)
    ensures var q', last := Renewed(q, i, token, w, times), if times == [] then deadline else times[|times| - 1] + 120.0;
            && i in q'.jobs && q'.jobs[i] == q.jobs[i].(expires := Some(last))
            && forall ts: Time :: Fence(q', i, w, token, ts) <==> ts < last
    decreases |times|
  {
    if times != [] {
      HolderRenews(q, i, token, w, times[0]);
      RenewingKeepsTheLease(Renew(q, i, token, w, times[0]), i, token, w, times[1..], times[0] + 120.0);
    }
  }

  // ---- Creation ----

  /** The job answers for its key: it waits, is in work, or has passed. */
  predicate Serves(job: Job, key: JobKey) {
    job.order.key == key && (job.status in {Queued, Passed} || InWork(job.status))
  }

  /** A newer order for the same branch and profile makes a waiting job of another key pointless. */
  predicate GivesWay(job: Job, order: Order) {
    && job.status == Queued && job.order.key != order.key && job.order.repository == order.repository
    && job.order.branch == order.branch && job.order.profile == order.profile
  }

  /** A job as it is created: it waits, has used none of its two attempts, and was queued when it was created. */
  predicate Fresh(job: Job, order: Order, ts: Time) {
    && job.order == order && job.status == Queued && job.attempts == 0 && job.maxAttempts == 2 && job.releases == 0
    && job.createdAt == ts && job.queuedAt == ts && job.startedAt.None? && job.finishedAt.None?
    && job.worker.None? && job.token.None? && job.expires.None? && !job.cancelRequested && job.supersededBy.None?
    && job.exitCode.None? && job.tree == "" && job.source.None? && job.log == EMPTY
  }

  /** What creation does to every row: it reuses, or inserts one and retires the jobs that give way. */
  lemma CreationInRows(q: Queue, id: JobId, order: Order, force: bool, supersede: bool, ts: Time)
    ensures var q' := CreateOrGet(q, id, order, force, supersede, ts);
            var reuses := !force && exists i :: i in q.jobs && Serves(q.jobs[i], order.key);
            && (reuses || id in q.jobs ==> q' == q)
            && (!reuses && id !in q.jobs ==>
                && q'.jobs.Keys == q.jobs.Keys + {id} && Fresh(q'.jobs[id], order, ts)
                && forall k :: k in q.jobs ==>
                   q'.jobs[k] == if supersede && GivesWay(q.jobs[k], order)
                                 then q.jobs[k].(status := Superseded, supersededBy := Some(id), finishedAt := Some(ts),
                                                 worker := None, token := None, expires := None)
                                 else q.jobs[k])
  {
    hide Upsert;
    if i :| i in q.jobs && Reusable(q, order.key, i) { assert Serves(q.jobs[i], order.key); }
    if i :| i in q.jobs && Serves(q.jobs[i], order.key) { assert Reusable(q, order.key, i); }
  }

  lemma ServesIsReusable(q: Queue, key: JobKey, i: JobId)
    ensures Reusable(q, key, i) <==> i in q.jobs && Serves(q.jobs[i], key)
  {
  }

  /** Unless a rerun is forced, no two jobs that wait, are in work or have passed share a key. */
  lemma AtMostOneServes(acts: seq<Action>, i: JobId, k: JobId)
    requires CanRun(START, acts) && forall n :: 0 <= n < |acts| && acts[n].DoCreate? ==> !acts[n].force
    requires i in After(START, acts).jobs && k in After(START, acts).jobs && i != k
    ensures var q := After(START, acts);
            !(Serves(q.jobs[i], q.jobs[k].order.key) && Serves(q.jobs[k], q.jobs[k].order.key))
  {
    hide Reusable, After, CanRun, Next;
    assert OneLive(START) by { NothingServes(); }
    OneLiveJobPerKey(START, acts);
    ServesIsReusable(After(START, acts), After(START, acts).jobs[k].order.key, i);
    ServesIsReusable(After(START, acts), After(START, acts).jobs[k].order.key, k);
  }

  lemma NothingServes()
    ensures OneLive(START)
  {
  }

  // ---- Recovery ----

  /** A job whose attempt was lost: back in the queue while attempts are left, else lost for good. */
  function AfterLoss(job: Job, ts: Time): Job {
    var free := job.(worker := None, token := None, expires := None);
    if job.attempts < job.maxAttempts then free.(status := Queued, queuedAt := ts)
    else free.(status := WorkerLost, finishedAt := Some(ts))
  }

  /** In work under a lease that has expired. */
  predicate Overdue(job: Job, ts: Time) { InWork(job.status) && job.expires.Some? && job.expires.value < ts }

  lemma RecoveryInRows(q: Queue, rows: set<JobId>, ts: Time)
    ensures RecoverRows(q, rows, ts).jobs.Keys == q.jobs.Keys
    ensures forall i :: i in q.jobs ==> RecoverRows(q, rows, ts).jobs[i] == if i in rows then AfterLoss(q.jobs[i], ts) else q.jobs[i]
  {
    hide InRepo, Requeued, Clamped;
  }
}
