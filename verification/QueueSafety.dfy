/** Accounting, attempts and lease shape: what every transaction of the job queue keeps. */
module QueueSafety {
  import opened LogStore
  import opened JobQueue

  // ---- True counts ----

  /** Whether a row counts for repository r, among the active rows or among the queued ones. */
  predicate Counts(job: Job, r: string, live: bool) {
    job.order.repository == r && (if live then Active(job.status) else job.status.Queued?)
  }

  ghost function Of(jobs: map<JobId, Job>, r: string, live: bool): set<JobId> {
    set i | i in jobs && Counts(jobs[i], r, live)
  }

  ghost predicate ExactAt(q: Queue, r: string) {
    && Row(q.repos, r).queued == |Of(q.jobs, r, false)|
    && Row(q.repos, r).running == |Of(q.jobs, r, true)|
  }

  /** Every stored counter is the true number of queued and of active jobs. */
  ghost predicate Exact(q: Queue) { forall r: string :: ExactAt(q, r) }

  function One(b: bool): int { if b then 1 else 0 }

  lemma CountAfterPut(jobs: map<JobId, Job>, i: JobId, job: Job, r: string, live: bool)
    ensures |Of(jobs[i := job], r, live)|
         == |Of(jobs, r, live)| - One(i in jobs && Counts(jobs[i], r, live)) + One(Counts(job, r, live))
  {
    hide Counts;
    OfAfterPut(jobs, i, job, r, live);
    CountWithout(Of(jobs, r, live), i);
    CountWithout(Of(jobs[i := job], r, live), i);
  }

  lemma OfAfterPut(jobs: map<JobId, Job>, i: JobId, job: Job, r: string, live: bool)
    ensures Of(jobs[i := job], r, live) - {i} == Of(jobs, r, live) - {i}
    ensures i in Of(jobs[i := job], r, live) <==> Counts(job, r, live)
    ensures i in Of(jobs, r, live) <==> i in jobs && Counts(jobs[i], r, live)
  {
    hide Counts;
  }

  lemma CountWithout(rows: set<JobId>, i: JobId)
    ensures |rows| == |rows - {i}| + One(i in rows)
  {
    if i in rows { assert rows == (rows - {i}) + {i}; } else { assert rows == rows - {i}; }
  }

  /** How a one-row write changes the true number of queued or active jobs of a repository. */
  function Delta(q: Queue, i: JobId, job: Job, r: string, live: bool): int {
    One(Counts(job, r, live)) - One(i in q.jobs && Counts(q.jobs[i], r, live))
  }

  /**
   A one-row write keeps the counters exact if and only if the deltas it books are the true ones;
   then the clamp at zero never changes a value.
   */
  lemma PutIsExactIff(q: Queue, i: JobId, job: Job, queued: int, running: int, dispatched: Option<Time>, q': Queue)
    requires Exact(q) && (i in q.jobs ==> q.jobs[i].order.repository == job.order.repository)
    requires q'.jobs == q.jobs[i := job] && q'.repos == Upsert(q.repos, job.order.repository, queued, running, dispatched)
    requires 0 <= Row(q.repos, job.order.repository).queued + queued && 0 <= Row(q.repos, job.order.repository).running + running
    ensures Exact(q') <==> (&& queued == Delta(q, i, job, job.order.repository, false)
                            && running == Delta(q, i, job, job.order.repository, true))
  {
    var r0 := job.order.repository;
    forall r, live { CountAfterPut(q.jobs, i, job, r, live); }
    assert ExactAt(q, r0);
    forall r | r != r0 ensures ExactAt(q', r) {
      assert ExactAt(q, r);
    }
    if Exact(q') { assert ExactAt(q', r0); }
  }

  lemma PutKeepsExact(q: Queue, i: JobId, job: Job, queued: int, running: int, dispatched: Option<Time>, q': Queue)
    requires Exact(q) && (i in q.jobs ==> q.jobs[i].order.repository == job.order.repository)
    requires q'.jobs == q.jobs[i := job] && q'.repos == Upsert(q.repos, job.order.repository, queued, running, dispatched)
    requires queued == Delta(q, i, job, job.order.repository, false)
    requires running == Delta(q, i, job, job.order.repository, true)
    ensures Exact(q')
    ensures 0 <= Row(q.repos, job.order.repository).queued + queued
    ensures 0 <= Row(q.repos, job.order.repository).running + running
  {
    var r0 := job.order.repository;
    assert ExactAt(q, r0);
    CountAfterPut(q.jobs, i, job, r0, true);
    CountAfterPut(q.jobs, i, job, r0, false);
    PutIsExactIff(q, i, job, queued, running, dispatched, q');
  }

  /** A write that leaves repository, queued-ness and activity of its row alone. */
  lemma SameClassKeepsExact(q: Queue, i: JobId, job: Job, q': Queue)
    requires Exact(q) && i in q.jobs && q'.jobs == q.jobs[i := job] && q'.repos == q.repos
    requires job.order.repository == q.jobs[i].order.repository
    requires Active(job.status) == Active(q.jobs[i].status) && job.status.Queued? == q.jobs[i].status.Queued?
    ensures Exact(q')
  {
    forall r ensures ExactAt(q', r) {
      assert ExactAt(q, r);
      CountAfterPut(q.jobs, i, job, r, true);
      CountAfterPut(q.jobs, i, job, r, false);
    }
  }

  // ---- The bulk writes ----

  lemma SupersedeKeepsExact(q: Queue, rows: set<JobId>, successor: JobId, repository: string, ts: Time)
    requires Exact(q)
    requires forall i :: i in rows ==> i in q.jobs && q.jobs[i].status.Queued? && q.jobs[i].order.repository == repository
    ensures Exact(Supersede(q, rows, successor, repository, ts))
    ensures |rows| <= Row(q.repos, repository).queued
  {
    hide Supersede, Row, Of;
    assert ExactAt(q, repository);
    WaitingRows(q.jobs, rows, repository);
    Subset(rows, Of(q.jobs, repository, false));
    forall r ensures ExactAt(Supersede(q, rows, successor, repository, ts), r) {
      assert ExactAt(q, r);
      SupersededCounts(q, rows, successor, repository, ts, r);
      SupersededRow(q, rows, successor, repository, ts, r);
    }
  }

  lemma WaitingRows(jobs: map<JobId, Job>, rows: set<JobId>, repository: string)
    requires forall i :: i in rows ==> i in jobs && jobs[i].status.Queued? && jobs[i].order.repository == repository
    ensures rows <= Of(jobs, repository, false)
  {
  }

  lemma SupersededRow(q: Queue, rows: set<JobId>, successor: JobId, repository: string, ts: Time, r: string)
    ensures var after := Row(Supersede(q, rows, successor, repository, ts).repos, r);
            && after.running == Row(q.repos, r).running
            && after.queued == if r == repository then Clamped(Row(q.repos, r).queued, -|rows|) else Row(q.repos, r).queued
  {
  }

  lemma SupersededCounts(q: Queue, rows: set<JobId>, successor: JobId, repository: string, ts: Time, r: string)
    requires forall i :: i in rows ==> i in q.jobs && q.jobs[i].status.Queued? && q.jobs[i].order.repository == repository
    ensures var after := Supersede(q, rows, successor, repository, ts).jobs;
            && Of(after, r, true) == Of(q.jobs, r, true)
            && Of(after, r, false) == if r == repository then Of(q.jobs, r, false) - rows else Of(q.jobs, r, false)
  {
    hide Upsert;
  }

  /** A set is as large as its subset and the rest together. */
  lemma Subset<T>(a: set<T>, b: set<T>)
    requires a <= b
    ensures |a| <= |b| && |b - a| == |b| - |a|
  {
    assert b == a + (b - a);
  }

  lemma RecoverKeepsExact(q: Queue, rows: set<JobId>, ts: Time)
    requires Exact(q)
    requires forall i :: i in rows ==> i in q.jobs && Active(q.jobs[i].status)
    ensures Exact(RecoverRows(q, rows, ts))
    ensures forall r :: |InRepo(q, rows, r)| <= Row(q.repos, r).running
  {
    var q' := RecoverRows(q, rows, ts);
    forall r ensures ExactAt(q', r) && |InRepo(q, rows, r)| <= Row(q.repos, r).running {
      assert ExactAt(q, r);
      var gone, back := InRepo(q, rows, r), InRepo(q, Requeued(q, rows), r);
      Subset(gone, Of(q.jobs, r, true));
      RecoveredCounts(q, rows, ts, r);
      RecoveredRow(q, rows, ts, r);
    }
  }

  lemma RecoveredCounts(q: Queue, rows: set<JobId>, ts: Time, r: string)
    requires forall i :: i in rows ==> i in q.jobs && Active(q.jobs[i].status)
    ensures var after := RecoverRows(q, rows, ts).jobs;
            && Of(after, r, true) == Of(q.jobs, r, true) - InRepo(q, rows, r)
            && Of(after, r, false) == Of(q.jobs, r, false) + InRepo(q, Requeued(q, rows), r)
            && Of(q.jobs, r, false) !! InRepo(q, Requeued(q, rows), r)
  {
    hide Row, Clamped, Upsert;
    forall i | i in q.jobs
      ensures Counts(RecoverRows(q, rows, ts).jobs[i], r, true) <==> Counts(q.jobs[i], r, true) && i !in InRepo(q, rows, r)
      ensures Counts(RecoverRows(q, rows, ts).jobs[i], r, false)
         <==> Counts(q.jobs[i], r, false) || i in InRepo(q, Requeued(q, rows), r)
    {
    }
  }

  lemma RecoveredRow(q: Queue, rows: set<JobId>, ts: Time, r: string)
    ensures Row(RecoverRows(q, rows, ts).repos, r).running == Clamped(Row(q.repos, r).running, -|InRepo(q, rows, r)|)
    ensures Row(RecoverRows(q, rows, ts).repos, r).queued == Row(q.repos, r).queued + |InRepo(q, Requeued(q, rows), r)|
  {
    var touched := set i | i in rows && i in q.jobs :: q.jobs[i].order.repository;
    if r !in q.repos.Keys + touched {
      assert InRepo(q, rows, r) == {} && InRepo(q, Requeued(q, rows), r) == {};
    }
  }

  // ---- The shape of one row ----

  /** An active row holds worker, token and expiry; any other row holds none of them. */
  ghost predicate LeaseShape(job: Job) {
    && (Active(job.status) ==> job.worker.Some? && job.token.Some? && job.expires.Some?)
    && (!Active(job.status) ==> job.worker.None? && job.token.None? && job.expires.None?)
  }

  /** Attempts never exceed the allowance plus the voluntary releases, strictly so while queued. */
  ghost predicate AttemptBound(job: Job) {
    && job.attempts <= job.maxAttempts + job.releases
    && (job.status.Queued? ==> job.attempts < job.maxAttempts + job.releases)
  }

  ghost predicate JobOk(q: Queue, i: JobId)
    requires i in q.jobs
  {
    var job := q.jobs[i];
    && LeaseShape(job)
    && AttemptBound(job)
    && (job.finishedAt.Some? ==> !Active(job.status) && !job.status.Queued?)
    && (job.token.Some? ==> job.token.value in q.issued)
    && Valid(job.log)
    && (forall s :: s in job.log.steps ==> s < q.nextStep)
  }

  ghost predicate TokensDistinct(q: Queue) {
    forall i, k :: i in q.jobs && k in q.jobs && i != k && q.jobs[i].token.Some? ==> q.jobs[i].token != q.jobs[k].token
  }

  ghost predicate Inv(q: Queue) {
    Exact(q) && TokensDistinct(q) && forall i :: i in q.jobs ==> JobOk(q, i)
  }

  lemma StartIsOk()
    ensures Inv(START)
  {
    forall r ensures ExactAt(START, r) {
      assert Of(START.jobs, r, true) == {} && Of(START.jobs, r, false) == {};
    }
  }

  // ---- Counters stay exact ----

  lemma LeaseKeepsExact(q: Queue, a: Action)
    requires Exact(q) && a.DoLease? && Enabled(q, a)
    ensures Exact(Next(q, a))
  {
    var q' := Next(q, a);
    PutKeepsExact(q, a.id, q'.jobs[a.id], -1, 1, Some(a.now), q');
  }

  lemma CreateKeepsExact(q: Queue, a: Action)
    requires Exact(q) && a.DoCreate?
    ensures Exact(Next(q, a))
  {
    var q' := Next(q, a);
    if q' != q {
      var rows := if a.supersede then Replaced(q, a.order) else {};
      var mid := if a.supersede then Supersede(q, rows, a.id, a.order.repository, a.now) else q;
      if a.supersede {
        SupersedeKeepsExact(q, rows, a.id, a.order.repository, a.now);
      }
      PutKeepsExact(mid, a.id, NewJob(a.order, a.now), 1, 0, None, q');
    }
  }

  /**
   The one place where a caller decides: a current worker's callback keeps the counters exact if and
   only if the word it reports is of the right class.
   */
  lemma CallIsExactIff(q: Queue, a: Action)
    requires Exact(q) && a.DoCall? && Fence(q, a.id, a.worker, a.token, a.now)
    ensures Exact(Next(q, a)) <==> WellReported(a)
  {
    var q' := Next(q, a);
    var r := q.jobs[a.id].order.repository;
    assert ExactAt(q, r);
    assert a.id in Of(q.jobs, r, true);
    match a.cb
    case Release => PutKeepsExact(q, a.id, q'.jobs[a.id], 1, -1, None, q');
    case Complete(_, _, _) => PutIsExactIff(q, a.id, q'.jobs[a.id], 0, -1, None, q');
    case SetStatus(st) =>
      if q' == q {
      } else if Active(st) {
        SameClassKeepsExact(q, a.id, q'.jobs[a.id], q');
      } else {
        assert Row(q'.repos, r) == Row(q.repos, r);
        CountAfterPut(q.jobs, a.id, q'.jobs[a.id], r, true);
        assert !ExactAt(q', r);
      }
    case _ => if q' != q { SameClassKeepsExact(q, a.id, q'.jobs[a.id], q'); }
  }

  /** Clean-up deletes only finished rows, which count nowhere. */
  lemma CleanupKeepsExact(q: Queue, a: Action)
    requires Inv(q) && a.DoCleanup?
    ensures Exact(Next(q, a))
  {
    forall r ensures ExactAt(Next(q, a), r) {
      assert ExactAt(q, r);
      forall i | i in q.jobs && i !in Next(q, a).jobs ensures !Active(q.jobs[i].status) && !q.jobs[i].status.Queued? {
        assert JobOk(q, i);
      }
      assert Of(Next(q, a).jobs, r, true) == Of(q.jobs, r, true);
      assert Of(Next(q, a).jobs, r, false) == Of(q.jobs, r, false);
    }
  }

  lemma NextKeepsExact(q: Queue, a: Action)
    requires Inv(q) && Enabled(q, a) && WellReported(a)
    ensures Exact(Next(q, a))
  {
    var q' := Next(q, a);
    match a
    case DoCreate(_, _, _, _, _) => CreateKeepsExact(q, a);
    case DoLease(_, _, _, _, _, _) => LeaseKeepsExact(q, a);
    case DoRenew(i, w, token, now) =>
      if q' != q { SameClassKeepsExact(q, i, q'.jobs[i], q'); }
    case DoCall(i, w, token, now, cb) =>
      if Fence(q, i, w, token, now) { CallIsExactIff(q, a); }
    case DoRequestCancel(i, now) =>
      if q' != q { SameClassKeepsExact(q, i, q'.jobs[i], q'); }
    case DoCancelQueued(i, now) =>
      if q' != q { PutKeepsExact(q, i, q'.jobs[i], -1, 0, None, q'); }
    case DoRecoverExpired(now) => RecoverKeepsExact(q, Expired(q, now), now);
    case DoRecoverWorker(w, now) => RecoverKeepsExact(q, OwnedBy(q, w), now);
    case DoCleanup(_, _) => CleanupKeepsExact(q, a);
  }

  // ---- The rows stay in shape ----

  lemma UntouchedRowOk(q: Queue, q': Queue, i: JobId)
    requires i in q.jobs && i in q'.jobs && JobOk(q, i) && q'.jobs[i] == q.jobs[i]
    requires q.issued <= q'.issued && q.nextStep <= q'.nextStep
    ensures JobOk(q', i)
  {
  }

  lemma NewRowOk(q: Queue, i: JobId, order: Order, ts: Time)
    requires i in q.jobs && q.jobs[i] == NewJob(order, ts)
    ensures JobOk(q, i)
  {
    assert Text(EMPTY.chunks) == "";
  }

  /** Recovery turns an attempt without allowance into worker_lost and any other into a queued row. */
  lemma RecoverKeepsJobOk(q: Queue, rows: set<JobId>, ts: Time, i: JobId)
    requires i in q.jobs && JobOk(q, i) && (i in rows ==> Active(q.jobs[i].status))
    ensures JobOk(RecoverRows(q, rows, ts), i)
  {
    hide Valid;
  }

  lemma CreateKeepsJobOk(q: Queue, a: Action, i: JobId)
    requires a.DoCreate? && i in Next(q, a).jobs && (i in q.jobs ==> JobOk(q, i))
    ensures JobOk(Next(q, a), i)
  {
    if i !in q.jobs {
      NewRowOk(Next(q, a), i, a.order, a.now);
    } else {
      hide Valid;
    }
  }

  lemma NextKeepsJobOk(q: Queue, a: Action, i: JobId)
    requires Inv(q) && Enabled(q, a) && WellReported(a) && i in Next(q, a).jobs
    ensures JobOk(Next(q, a), i)
  {
    hide Valid, Exact, TokensDistinct, CreateOrGet, Upsert, NotAfter;
    if i in q.jobs { assert JobOk(q, i); }
    match a
    case DoCreate(_, _, _, _, _) => CreateKeepsJobOk(q, a, i);
    case DoRecoverExpired(now) => RecoverKeepsJobOk(q, Expired(q, now), now, i);
    case DoRecoverWorker(w, now) => RecoverKeepsJobOk(q, OwnedBy(q, w), now, i);
    case DoCall(id, w, token, now, cb) =>
      if Fence(q, id, w, token, now) {
        if id == i { CallKeepsJobOk(q, a); } else { UntouchedRowOk(q, Next(q, a), i); }
      }
    case DoLease(id, _, _, _, _, _) =>
      if id != i { UntouchedRowOk(q, Next(q, a), i); }
    case _ =>
      hide JobOk;
      MinorKeepsJobOk(q, a, i);
  }

  /** Renewal, cancellation and clean-up. */
  lemma MinorKeepsJobOk(q: Queue, a: Action, i: JobId)
    requires (a.DoRenew? || a.DoRequestCancel? || a.DoCancelQueued? || a.DoCleanup?) && i in Next(q, a).jobs
    requires i in q.jobs ==> JobOk(q, i)
    ensures JobOk(Next(q, a), i)
  {
    hide Valid, Upsert;
  }

  lemma CallKeepsJobOk(q: Queue, a: Action)
    requires a.DoCall? && Fence(q, a.id, a.worker, a.token, a.now) && WellReported(a) && JobOk(q, a.id)
    ensures JobOk(Next(q, a), a.id)
  {
    var log := q.jobs[a.id].log;
    match a.cb
    case WriteLog(op) =>
      if !op.StartStep? { ApplyExtendsText(log, op); }
    case AddStepRow(name, st) => ApplyExtendsText(log, StartStep(q.nextStep, name, st));
    case _ =>
  }

  lemma NextKeepsTokensDistinct(q: Queue, a: Action)
    requires Inv(q) && Enabled(q, a)
    ensures TokensDistinct(Next(q, a))
  {
    hide Exact, Valid, AttemptBound, LeaseShape, Upsert, NotAfter, Apply, AddStep;
    var q' := Next(q, a);
    forall i | i in q'.jobs && q'.jobs[i].token.Some?
      ensures (a.DoLease? && a.id == i && q'.jobs[i].token.value !in q.issued)
           || (i in q.jobs && q'.jobs[i].token == q.jobs[i].token && q'.jobs[i].token.value in q.issued)
    {
      if i in q.jobs { assert JobOk(q, i); }
    }
  }

  lemma NextKeepsInv(q: Queue, a: Action)
    requires Inv(q) && Enabled(q, a) && WellReported(a)
    ensures Inv(Next(q, a))
  {
    NextKeepsExact(q, a);
    NextKeepsTokensDistinct(q, a);
    forall i | i in Next(q, a).jobs ensures JobOk(Next(q, a), i) {
      NextKeepsJobOk(q, a, i);
    }
  }
}
