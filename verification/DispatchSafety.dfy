/** Exactly-once dispatch, sound passes and startup repair, over every interleaving of dispatchers. */
module DispatchSafety {
  import opened LogStore
  import opened JobQueue
  import opened QueueRuns
  import opened RequestStore
  import opened RequestSafety

  /**
   The calls the dispatcher makes: accepted to preparing, preparing to preflight_failed, dispatch.
   Any number of dispatchers may make them, with any stale revision, tree or job id, and stop
   anywhere. Worker callbacks, cancellations and recoveries are unrestricted; clean-up is left out.
   */
  predicate DispatcherAct(a: DbAction) {
    && (a.TransitionAct? ==> a.job.None? && (a.to.Preflighting? || a.to == Ended(DidFailPreflight)))
    && (a.QueueAct? ==> !a.a.DoCleanup?)
  }

  ghost predicate AllDispatcher(acts: seq<DbAction>) {
    forall k :: 0 <= k < |acts| ==> DispatcherAct(acts[k])
  }

  /** The Worker Jobs that were created for a Request. */
  ghost function JobsFor(q: Queue, id: RequestId): set<JobId> {
    set i | i in q.jobs && q.jobs[i].order.key == RequestKey(id)
  }

  predicate Unqueued(st: State) { st.Accepted? || st.Preflighting? || st == Ended(DidFailPreflight) }

  /** No job before the Request is queued and none if preflight failed; else exactly the bound one. */
  ghost predicate BindOk(db: Db, id: RequestId)
    requires id in db.requests
  {
    var r := db.requests[id];
    if Unqueued(r.state) then r.job.None? && JobsFor(db.queue, id) == {}
    else
      && r.job.Some? && JobsFor(db.queue, id) == {r.job.value} && r.job.value in db.queue.jobs
      && SameIdentity(r, db.queue.jobs[r.job.value]) && IsSha(r.identity.tree)
  }

  /** A terminal Request of a dispatched job has the job's own terminal status, with its evidence. */
  ghost predicate Agrees(db: Db, id: RequestId)
    requires id in db.requests
  {
    var r := db.requests[id];
    r.state.Ended? && !r.state.outcome.DidFailPreflight? && Bound(db, id) ==>
      var job := db.queue.jobs[r.job.value];
      OutcomeOfStatus(job.status) == Some(r.state.outcome) && Evidence(r, job)
  }

  ghost predicate NoOrphans(db: Db) {
    forall i :: i in db.queue.jobs && db.queue.jobs[i].order.key.RequestKey? ==>
      db.queue.jobs[i].order.key.requestId in db.requests
  }

  ghost predicate DbInv(db: Db) {
    NoOrphans(db) && forall id :: id in db.requests ==> BindOk(db, id) && Agrees(db, id)
  }

  // ---- What the queue does to a job's order and to a settled job ----

  lemma NextKeepsOrder(q: Queue, a: Action, i: JobId)
    requires Enabled(q, a) && !a.DoCleanup?
    ensures i in q.jobs ==> i in Next(q, a).jobs && Next(q, a).jobs[i].order == q.jobs[i].order
    ensures i !in q.jobs && i in Next(q, a).jobs ==> a.DoCreate? && Next(q, a).jobs[i].order == a.order
  {
    hide Upsert, NotAfter, Reusable, AddStep, Apply;
  }

  lemma QueueKeepsJobsFor(q: Queue, a: Action, id: RequestId)
    requires Enabled(q, a) && !a.DoCleanup? && (a.DoCreate? ==> a.order.key.CommitKey?)
    ensures JobsFor(Next(q, a), id) == JobsFor(q, id)
  {
    hide Next, NotAfter;
    forall i ensures i in JobsFor(Next(q, a), id) <==> i in JobsFor(q, id) {
      NextKeepsOrder(q, a, i);
    }
  }

  lemma OutcomeIsSettled(st: Status)
    ensures OutcomeOfStatus(st).Some? <==> Terminal(st)
    ensures Terminal(st) ==> Settled(st)
  {
  }

  // ---- Projection ----

  /** Projection keeps job and identity, moves only dispatched rows, and ends them as their job ended. */
  lemma ProjectionAgrees(r: Request, id: JobId, job: Job, rows: seq<Attestation>, now: Time)
    ensures var r' := Projected(r, id, job, rows, now);
            && r'.job == r.job && r'.identity == r.identity
            && (r' != r ==> !Unqueued(r'.state) && Evidence(r, job))
            && (Unqueued(r.state) ==> Unqueued(r'.state) || !r.state.Ended? || r' == r)
            && (r'.state != r.state && r'.state.Ended? ==> OutcomeOfStatus(job.status) == Some(r'.state.outcome))
            && (r.state.Ended? ==> r'.state == r.state)
            && (r.state.Accepted? || r.state.Preflighting? ==> r' == r)
  {
    hide Evidence, Matching;
  }

  lemma ReconcileKeepsRow(db: Db, db': Db, id: RequestId, now: Time)
    requires id in db.requests && id in db'.requests && db'.queue == db.queue && BindOk(db, id)
    requires db'.requests[id] == db.requests[id] || db'.requests[id] == ProjectedRow(db, id, now)
    ensures BindOk(db', id)
    ensures Agrees(db, id) ==> Agrees(db', id)
  {
    hide Evidence, Projected, SameIdentity, IsSha;
    var r, r' := db.requests[id], db'.requests[id];
    if Bound(db, id) {
      var job := db.queue.jobs[r.job.value];
      ProjectionAgrees(r, r.job.value, job, db.attestations, now);
      EvidenceOfSameIdentity(r, r', job);
    }
  }

  lemma EvidenceOfSameIdentity(r: Request, r': Request, job: Job)
    requires r'.identity == r.identity
    ensures Evidence(r', job) == Evidence(r, job) && SameIdentity(r', job) == SameIdentity(r, job)
  {
  }

  // ---- One step ----

  lemma QueueMoveKeepsInv(db: Db, a: Action, id: RequestId)
    requires DbInv(db) && id in db.requests && Enabled(db.queue, a) && !a.DoCleanup?
    requires a.DoCreate? ==> a.order.key.CommitKey?
    ensures var moved := db.(queue := Next(db.queue, a)); BindOk(moved, id) && Agrees(moved, id)
  {
    hide Next, Enabled, IsSha, Upsert;
    assert BindOk(db, id) && Agrees(db, id);
    QueueKeepsJobsFor(db.queue, a, id);
    var r := db.requests[id];
    if Bound(db, id) {
      NextKeepsOrder(db.queue, a, r.job.value);
      var st := db.queue.jobs[r.job.value].status;
      OutcomeIsSettled(st);
      if Settled(st) { NextKeepsSettled(db.queue, a, r.job.value); }
    }
  }

  lemma QueueActKeepsInv(db: Db, a: DbAction)
    requires DbInv(db) && a.QueueAct? && Possible(db, a) && DispatcherAct(a)
    ensures DbInv(Transact(db, a))
  {
    hide Next, NotAfter, Projected, Reconciles, BindOk, Agrees;
    var qa, moved := a.a, db.(queue := Next(db.queue, a.a));
    var db' := Transact(db, a);
    assert db' == Reconcile(moved, Reconciles(db.queue, qa), qa.now);
    forall id | id in db'.requests ensures BindOk(db', id) && Agrees(db', id) {
      QueueMoveKeepsInv(db, qa, id);
      ReconcileKeepsRow(moved, db', id, qa.now);
    }
    forall i | i in db'.queue.jobs && db'.queue.jobs[i].order.key.RequestKey?
      ensures db'.queue.jobs[i].order.key.requestId in db'.requests
    {
      NextKeepsOrder(db.queue, qa, i);
      assert i in db.queue.jobs;
    }
  }

  lemma CreateActKeepsInv(db: Db, a: DbAction)
    requires DbInv(db) && a.CreateAct? && Possible(db, a)
    ensures DbInv(Transact(db, a))
  {
    hide CreateOutcomeOf, Evidence, SameIdentity, IsSha;
    var db' := Transact(db, a);
    forall id | id in db'.requests ensures BindOk(db', id) && Agrees(db', id) {
      if id in db.requests {
        CreateKeepsRows(db, a, id);
        assert BindOk(db, id) && Agrees(db, id);
      } else {
        NewRowsAreCreated(db, a, id);
        assert JobsFor(db.queue, id) == {};
      }
    }
  }

  lemma TransitionActKeepsInv(db: Db, a: DbAction)
    requires DbInv(db) && a.TransitionAct? && DispatcherAct(a)
    ensures DbInv(Transact(db, a))
  {
    hide Evidence, SameIdentity, IsSha, Unclaimed, MetadataFits;
    var db' := Transact(db, a);
    forall id | id in db'.requests ensures BindOk(db', id) && Agrees(db', id) {
      assert BindOk(db, id) && Agrees(db, id);
    }
  }

  /** Creating the Worker Job of a Request adds that job and supersedes only waiting jobs. */
  lemma DispatchedQueue(q: Queue, i: JobId, order: Order, supersede: bool, ts: Time)
    requires i !in q.jobs && !HasReusable(q, order.key)
    ensures var q' := CreateOrGet(q, i, order, false, supersede, ts);
            && q'.jobs.Keys == q.jobs.Keys + {i}
            && q'.jobs[i] == NewJob(order, ts)
            && (forall k :: k in q.jobs ==> q'.jobs[k].order == q.jobs[k].order)
            && (forall k :: k in q.jobs && !q.jobs[k].status.Queued? ==> q'.jobs[k] == q.jobs[k])
  {
    hide Upsert;
  }

  lemma DispatchActKeepsInv(db: Db, a: DbAction)
    requires DbInv(db) && a.DispatchAct? && Possible(db, a)
    ensures DbInv(Transact(db, a))
  {
    hide Transact, Unclaimed, NewestReusable;
    var db' := Transact(db, a);
    if db' != db {
      NewlyDispatched(db, a);
      forall id | id in db.requests && id != a.id ensures BindOk(db', id) && Agrees(db', id) {
        OthersStayBound(db, db', a, id);
      }
      DispatchedIsBound(db, db', a);
    }
  }

  /** A dispatch that writes finds no job of the Request, so it creates one. */
  lemma NewlyDispatched(db: Db, a: DbAction)
    requires DbInv(db) && a.DispatchAct? && Possible(db, a) && Transact(db, a) != db
    ensures a.id in db.requests && Unqueued(db.requests[a.id].state) && IsSha(a.tree) && a.newJob !in db.queue.jobs
    ensures var r, db' := db.requests[a.id], Transact(db, a);
            && r.payload.Some?
            && db'.queue == CreateOrGet(db.queue, a.newJob, OrderOf(a.id, r), false, r.payload.value.supersede, a.now)
            && db'.requests == db.requests[a.id := Advance(r, WorkerQueued, Enqueued).(
                                 identity := r.identity.(tree := a.tree), job := Some(a.newJob))]
    ensures !HasReusable(db.queue, RequestKey(a.id))
  {
    hide IsSha, CreateOrGet, Unclaimed, NewestReusable, Agrees, NoOrphans;
    RefusedDecides(db, a.id, a.expected, a.tree);
    assert BindOk(db, a.id);
    forall i | i in db.queue.jobs ensures !Reusable(db.queue, RequestKey(a.id), i) {
      assert i in JobsFor(db.queue, a.id) <==> db.queue.jobs[i].order.key == RequestKey(a.id);
    }
  }

  lemma OthersStayBound(db: Db, db': Db, a: DbAction, id: RequestId)
    requires DbInv(db) && a.DispatchAct? && a.id in db.requests && id in db.requests && id != a.id
    requires db.requests[a.id].payload.Some? && a.newJob !in db.queue.jobs
    requires !HasReusable(db.queue, RequestKey(a.id))
    requires var r := db.requests[a.id];
             db'.queue == CreateOrGet(db.queue, a.newJob, OrderOf(a.id, r), false, r.payload.value.supersede, a.now)
    requires id in db'.requests && db'.requests[id] == db.requests[id]
    ensures BindOk(db', id) && Agrees(db', id)
  {
    hide Evidence, IsSha, CreateOrGet, Reusable;
    var r := db.requests[a.id];
    DispatchedQueue(db.queue, a.newJob, OrderOf(a.id, r), r.payload.value.supersede, a.now);
    assert BindOk(db, id) && Agrees(db, id);
    assert JobsFor(db'.queue, id) == JobsFor(db.queue, id);
    if Bound(db, id) { OutcomeIsSettled(db.queue.jobs[db.requests[id].job.value].status); }
  }

  lemma DispatchedIsBound(db: Db, db': Db, a: DbAction)
    requires DbInv(db) && a.DispatchAct? && a.id in db.requests && Unqueued(db.requests[a.id].state) && IsSha(a.tree)
    requires db.requests[a.id].payload.Some? && a.newJob !in db.queue.jobs
    requires !HasReusable(db.queue, RequestKey(a.id))
    requires var r := db.requests[a.id];
             && db'.queue == CreateOrGet(db.queue, a.newJob, OrderOf(a.id, r), false, r.payload.value.supersede, a.now)
             && db'.requests == db.requests[a.id := Advance(r, WorkerQueued, Enqueued).(
                                  identity := r.identity.(tree := a.tree), job := Some(a.newJob))]
    ensures BindOk(db', a.id) && Agrees(db', a.id) && NoOrphans(db')
  {
    hide Evidence, IsSha, CreateOrGet, Reusable;
    var r := db.requests[a.id];
    DispatchedQueue(db.queue, a.newJob, OrderOf(a.id, r), r.payload.value.supersede, a.now);
    assert BindOk(db, a.id);
    assert JobsFor(db'.queue, a.id) == {a.newJob};
  }

  lemma TransactKeepsInv(db: Db, a: DbAction)
    requires DbInv(db) && Possible(db, a) && DispatcherAct(a)
    ensures DbInv(Transact(db, a))
  {
    match a
    case QueueAct(_) => QueueActKeepsInv(db, a);
    case CreateAct(_, _, _, _, _, _, _) => CreateActKeepsInv(db, a);
    case TransitionAct(_, _, _, _, _, _) => TransitionActKeepsInv(db, a);
    case DispatchAct(_, _, _, _, _, _) => DispatchActKeepsInv(db, a);
    case AttestAct(_, _) => AttestationsDoNotMatter(db, a);
    case _ =>
      hide Projected, BindOk, Agrees;
      var db' := Transact(db, a);
      forall id | id in db'.requests ensures BindOk(db', id) && Agrees(db', id) {
        ReconcileKeepsRow(db, db', id, a.now);
      }
  }

  lemma AttestationsDoNotMatter(db: Db, a: DbAction)
    requires DbInv(db) && a.AttestAct?
    ensures DbInv(Transact(db, a))
  {
    forall id | id in db.requests ensures BindOk(Transact(db, a), id) && Agrees(Transact(db, a), id) {
      assert BindOk(db, id) && Agrees(db, id);
    }
  }

  lemma {:induction false} InvAlways(db: Db, acts: seq<DbAction>)
    requires DbInv(db) && CanRunDb(db, acts) && AllDispatcher(acts)
    ensures DbInv(AfterDb(db, acts))
    decreases |acts|
  {
    hide DbInv, Transact;
    if acts != [] {
      assert DispatcherAct(acts[0]);
      TransactKeepsInv(db, acts[0]);
      InvAlways(Transact(db, acts[0]), acts[1..]);
    }
  }

  // ---- Exactly once ----

  /** Reconciling never touches the job column. */
  lemma ReconcileKeepsJob(db: Db, jobs: set<JobId>, now: Time, id: RequestId)
    requires id in db.requests
    ensures Reconcile(db, jobs, now).requests[id].job == db.requests[id].job
    ensures Repair(db, now).requests[id].job == db.requests[id].job
  {
    hide Projected;
    var r := db.requests[id];
    if Bound(db, id) {
      ProjectionAgrees(r, r.job.value, db.queue.jobs[r.job.value], db.attestations, now);
    }
  }

  /** A binding, once made, is never replaced or taken back. */
  lemma TransactKeepsBinding(db: Db, a: DbAction, id: RequestId)
    requires DbInv(db) && Possible(db, a) && DispatcherAct(a) && id in db.requests && db.requests[id].job.Some?
    ensures id in Transact(db, a).requests && Transact(db, a).requests[id].job == db.requests[id].job
  {
    hide Next, Evidence, ProjectedRow, CreateOrGet, SameIdentity, CreateOutcomeOf, NotAfter, Agrees;
    assert BindOk(db, id);
    match a
    case QueueAct(qa) =>
      var moved := db.(queue := Next(db.queue, qa));
      ReconcileKeepsJob(moved, Reconciles(db.queue, qa), qa.now, id);
    case CreateAct(_, _, _, _, _, _, _) => CreateKeepsRows(db, a, id);
    case ReconcileAct(worker, now) => ReconcileKeepsJob(db, {worker}, now, id);
    case RepairAct(now) => ReconcileKeepsJob(db, {}, now, id);
    case _ =>
  }

  lemma {:induction false} BindingIsForEver(db: Db, acts: seq<DbAction>, id: RequestId)
    requires DbInv(db) && CanRunDb(db, acts) && AllDispatcher(acts) && id in db.requests && db.requests[id].job.Some?
    ensures id in AfterDb(db, acts).requests && AfterDb(db, acts).requests[id].job == db.requests[id].job
    decreases |acts|
  {
    hide DbInv, Transact;
    if acts != [] {
      assert DispatcherAct(acts[0]);
      TransactKeepsInv(db, acts[0]);
      TransactKeepsBinding(db, acts[0], id);
      BindingIsForEver(Transact(db, acts[0]), acts[1..], id);
    }
  }

  lemma StartIsBound()
    ensures DbInv(EMPTY_DB) && Histories(EMPTY_DB)
  {
  }

  /**
   Exactly-once dispatch: in every reachable state a Request that is not queued yet, or whose
   preflight failed, has no Worker Job; any other has exactly one, the job it is bound to.
   */
  lemma ExactlyOneJob(acts: seq<DbAction>, id: RequestId)
    requires CanRunDb(EMPTY_DB, acts) && AllDispatcher(acts) && id in AfterDb(EMPTY_DB, acts).requests
    ensures var db := AfterDb(EMPTY_DB, acts);
            var r := db.requests[id];
            if Unqueued(r.state) then JobsFor(db.queue, id) == {} && r.job.None?
            else r.job.Some? && JobsFor(db.queue, id) == {r.job.value}
  {
    StartIsBound();
    InvAlways(EMPTY_DB, acts);
    assert BindOk(AfterDb(EMPTY_DB, acts), id);
  }

  // ---- Sound pass ----

  /**
   In every reachable state a passed Request has a job that passed with exit code 0, for the same
   repository, branch, commit and profile, and that reported the very tree the Request is pinned to.
   */
  lemma PassIsSound(acts: seq<DbAction>, id: RequestId)
    requires CanRunDb(EMPTY_DB, acts) && AllDispatcher(acts)
    requires id in AfterDb(EMPTY_DB, acts).requests && AfterDb(EMPTY_DB, acts).requests[id].state == Ended(DidPass)
    ensures var db := AfterDb(EMPTY_DB, acts);
            var r := db.requests[id];
            && Bound(db, id)
            && var job := db.queue.jobs[r.job.value];
               job.status.Passed? && job.exitCode == Some(0) && SameIdentity(r, job)
               && job.tree == r.identity.tree && IsSha(job.tree)
  {
    hide CanRunDb, AfterDb;
    StartIsBound();
    InvAlways(EMPTY_DB, acts);
    PassedRow(AfterDb(EMPTY_DB, acts), id);
  }

  lemma PassedRow(db: Db, id: RequestId)
    requires DbInv(db) && id in db.requests && db.requests[id].state == Ended(DidPass)
    ensures var r := db.requests[id];
            && Bound(db, id)
            && var job := db.queue.jobs[r.job.value];
               job.status.Passed? && job.exitCode == Some(0) && SameIdentity(r, job)
               && job.tree == r.identity.tree && IsSha(job.tree)
  {
    hide JobsFor, SameIdentity, IsSha;
    assert BindOk(db, id) && Agrees(db, id);
  }

  /** The job behind a terminal Request is frozen: later runs change neither. */
  lemma {:induction false} EndedJobIsFrozen(db: Db, acts: seq<DbAction>, i: JobId)
    requires CanRunDb(db, acts) && AllDispatcher(acts) && i in db.queue.jobs && Settled(db.queue.jobs[i].status)
    ensures i in AfterDb(db, acts).queue.jobs && AfterDb(db, acts).queue.jobs[i] == db.queue.jobs[i]
    decreases |acts|
  {
    if acts != [] {
      assert DispatcherAct(acts[0]);
      TransactKeepsSettled(db, acts[0], i);
      EndedJobIsFrozen(Transact(db, acts[0]), acts[1..], i);
    }
  }

  lemma TransactKeepsSettled(db: Db, a: DbAction, i: JobId)
    requires Possible(db, a) && DispatcherAct(a) && i in db.queue.jobs && Settled(db.queue.jobs[i].status)
    ensures i in Transact(db, a).queue.jobs && Transact(db, a).queue.jobs[i] == db.queue.jobs[i]
  {
    hide Next, Projected, Upsert, SameIdentity, Reusable;
    if a.QueueAct? { NextKeepsSettled(db.queue, a.a, i); }
  }

  // ---- Startup repair ----

  /**
   After startup repair a dispatched Request is terminal if and only if its job is terminal with
   matching evidence, and then it carries the job's own status: superseded and lost jobs included.
   */
  lemma RepairIsComplete(db: Db, id: RequestId, now: Time)
    requires DbInv(db) && id in db.requests && !Unqueued(db.requests[id].state)
    ensures var r := Repair(db, now).requests[id];
            var job := db.queue.jobs[db.requests[id].job.value];
            && (r.state.Ended? <==> Terminal(job.status) && Evidence(r, job))
            && (r.state.Ended? ==> OutcomeOfStatus(job.status) == Some(r.state.outcome))
  {
    assert BindOk(db, id) && Agrees(db, id);
    var r := db.requests[id];
    var job := db.queue.jobs[r.job.value];
    OutcomeIsSettled(job.status);
    ProjectionAgrees(r, r.job.value, job, db.attestations, now);
    EvidenceOfSameIdentity(r, Repair(db, now).requests[id], job);
    hide Matching, SameIdentity, IsSha;
  }

  lemma ProjectingTwice(r: Request, id: JobId, job: Job, rows: seq<Attestation>, now: Time)
    ensures Projected(Projected(r, id, job, rows, now), id, job, rows, now) == Projected(r, id, job, rows, now)
  {
    var r' := Projected(r, id, job, rows, now);
    if r' != r {
      EvidenceOfSameIdentity(r, r', job);
      SameMatch(r, r', id, rows, now);
    }
  }

  lemma {:induction false} SameMatch(r: Request, r': Request, id: JobId, rows: seq<Attestation>, now: Time)
    requires r'.identity == r.identity
    ensures Matching(rows, r', id, now) == Matching(rows, r, id, now)
  {
    if rows != [] { SameMatch(r, r', id, rows[..|rows| - 1], now); }
  }

  /** A second pass at the same clock changes nothing, from any state whatsoever. */
  lemma RepairIsIdempotent(db: Db, now: Time)
    ensures Repair(Repair(db, now), now) == Repair(db, now)
  {
    var once := Repair(db, now);
    forall id | id in db.requests
      ensures Repair(once, now).requests[id] == once.requests[id]
    {
      var r := db.requests[id];
      if Bound(db, id) {
        ProjectingTwice(r, r.job.value, db.queue.jobs[r.job.value], db.attestations, now);
        ProjectionAgrees(r, r.job.value, db.queue.jobs[r.job.value], db.attestations, now);
      }
    }
  }
}
