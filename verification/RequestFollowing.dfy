/**
 Requests keep up with their jobs. In every reachable state a Request whose job has ended with matching evidence
 has ended too, unless the job was superseded or lost in a worker restart: those two alone wait for the repair.
 */
module RequestFollowing {
  import opened LogStore
  import opened JobQueue
  import opened QueueRuns
  import opened QueueRows
  import opened RequestStore
  import opened RequestRows
  import opened RequestSafety
  import opened DispatchSafety

  /** The Request has followed its job as far as that went; `spared` are the jobs lost in worker restarts. */
  ghost predicate KeepsUp(r: Request, job: Job, i: JobId, spared: set<JobId>) {
    IsLive(r) && Proves(r, job) ==>
      && (HasEnded(job.status) ==> job.status == Superseded || i in spared)
      && (job.status == Running ==> r.state == Executing)
  }

  ghost predicate AllKeepUp(db: Db, spared: set<JobId>) {
    forall r :: r in db.requests && Bound(db, r) ==>
      KeepsUp(db.requests[r], db.queue.jobs[db.requests[r].job.value], db.requests[r].job.value, spared)
  }

  /** The jobs a restarted worker had in work. */
  ghost function LostInRestart(db: Db, a: DbAction): set<JobId> {
    if a.QueueAct? && a.a.DoRecoverWorker?
    then set i | i in db.queue.jobs && InWork(db.queue.jobs[i].status) && db.queue.jobs[i].worker == Some(a.a.worker)
    else {}
  }

  ghost function LostInRestarts(db: Db, acts: seq<DbAction>): set<JobId>
    requires CanRunDb(db, acts)
    decreases |acts|
  {
    if acts == [] then {} else LostInRestart(db, acts[0]) + LostInRestarts(Transact(db, acts[0]), acts[1..])
  }

  /** Workers report a live phase while they run and an outcome when they complete. */
  ghost predicate AllReportWell(acts: seq<DbAction>) {
    forall k :: 0 <= k < |acts| && acts[k].QueueAct? ==> WellReported(acts[k].a)
  }

  /** A job row changed in a way its Request need not follow at once. */
  ghost predicate NeedsNoFollowing(a: Action, job: Job, job': Job) {
    || (job'.status == job.status && job'.order == job.order && job'.tree == job.tree && job'.exitCode == job.exitCode)
    || !(HasEnded(job'.status) || job'.status == Running)
    || job'.status == Superseded
    || (a.DoRecoverWorker? && InWork(job.status) && job.worker == Some(a.worker) && job'.status != Running)
  }

  lemma CallUnreconciled(q: Queue, a: Action, i: JobId)
    requires a.DoCall? && WellReported(a) && i in q.jobs && i !in Reconciles(q, a)
    ensures i in Next(q, a).jobs && NeedsNoFollowing(a, q.jobs[i], Next(q, a).jobs[i])
  {
    hide Upsert, AddStep, Apply;
  }

  /** What a step of the queue does to a job it does not reconcile. */
  lemma Unreconciled(q: Queue, a: Action, i: JobId)
    requires Enabled(q, a) && WellReported(a) && !a.DoCleanup? && i in q.jobs && i !in Reconciles(q, a)
    ensures i in Next(q, a).jobs && NeedsNoFollowing(a, q.jobs[i], Next(q, a).jobs[i])
  {
    hide Upsert, NotAfter, ApplyCallback, Call, RecoverRows, CreateOrGet;
    if a.DoCall? {
      CallUnreconciled(q, a, i);
    } else if a.DoCreate? {
      CreationInRows(q, a.id, a.order, a.force, a.supersede, a.now);
    } else if a.DoRecoverExpired? {
      RecoveryInRows(q, Expired(q, a.now), a.now);
    } else if a.DoRecoverWorker? {
      RecoveryInRows(q, OwnedBy(q, a.worker), a.now);
    }
  }

  lemma QueueStepKeepsUp(db: Db, a: DbAction, spared: set<JobId>)
    requires DbInv(db) && AllKeepUp(db, spared) && Possible(db, a) && DispatcherAct(a) && a.QueueAct? && WellReported(a.a)
    ensures AllKeepUp(Transact(db, a), spared + LostInRestart(db, a))
  {
    hide Next, Reconcile, KeepsUp, Reconciles, NotAfter, FollowsJob, DbInv, WellReported, NeedsNoFollowing;
    var moved, db' := db.(queue := Next(db.queue, a.a)), Transact(db, a);
    ReconcileInRows(moved, Reconciles(db.queue, a.a), a.a.now);
    forall r | r in db'.requests && Bound(db', r)
      ensures KeepsUp(db'.requests[r], db'.queue.jobs[db'.requests[r].job.value], db'.requests[r].job.value,
                      spared + LostInRestart(db, a))
    {
      var row, i := db.requests[r], db'.requests[r].job.value;
      if row.job.Some? && row.job.value in Reconciles(db.queue, a.a) && row.job.value in moved.queue.jobs {
        FollowedKeepsUp(row, db'.requests[r], i, moved.queue.jobs[row.job.value], db.attestations, a.a.now,
                        spared + LostInRestart(db, a));
      } else if IsLive(row) {
        LiveIsBound(db, r);
        Unreconciled(db.queue, a.a, i);
        StillKeepsUp(row, a.a, db.queue.jobs[i], db'.queue.jobs[i], i, spared, spared + LostInRestart(db, a));
      } else {
        NotLiveKeepsUp(row, db'.queue.jobs[i], i, spared + LostInRestart(db, a));
      }
    }
  }

  lemma LiveIsBound(db: Db, r: RequestId)
    requires DbInv(db) && r in db.requests && IsLive(db.requests[r])
    ensures Bound(db, r)
  {
    assert BindOk(db, r);
  }

  lemma NotLiveKeepsUp(r: Request, job: Job, i: JobId, spared: set<JobId>)
    requires !IsLive(r)
    ensures KeepsUp(r, job, i, spared)
  {
  }

  lemma FollowedKeepsUp(r: Request, r': Request, i: JobId, job: Job, rows: seq<Attestation>, now: Time, spared: set<JobId>)
    requires r.job.Some? && FollowsJob(r, r', r.job.value, job, rows, now)
    ensures KeepsUp(r', job, i, spared) && r'.job == r.job
  {
    hide Certified;
  }

  lemma StillKeepsUp(r: Request, a: Action, job: Job, job': Job, i: JobId, spared: set<JobId>, spared': set<JobId>)
    requires KeepsUp(r, job, i, spared) && spared <= spared' && NeedsNoFollowing(a, job, job')
    requires a.DoRecoverWorker? && InWork(job.status) && job.worker == Some(a.worker) ==> i in spared'
    ensures KeepsUp(r, job', i, spared')
  {
  }

  lemma DispatchKeepsUp(db: Db, a: DbAction, spared: set<JobId>)
    requires DbInv(db) && AllKeepUp(db, spared) && Possible(db, a) && a.DispatchAct?
    ensures AllKeepUp(Transact(db, a), spared)
  {
    hide KeepsUp, DbInv, Transact, Reusable, CreateOrGet, NotAfter, NewestReusable;
    var db' := Transact(db, a);
    if db' != db {
      NewlyDispatched(db, a);
      var order := OrderOf(a.id, db.requests[a.id]);
      var supersede := db.requests[a.id].payload.value.supersede;
      CreationInRows(db.queue, a.newJob, order, false, supersede, a.now);
      NoneServes(db.queue, order.key);
      forall r | r in db'.requests && Bound(db', r)
        ensures KeepsUp(db'.requests[r], db'.queue.jobs[db'.requests[r].job.value], db'.requests[r].job.value, spared)
      {
        var row, i := db'.requests[r], db'.requests[r].job.value;
        if r == a.id {
          FreshKeepsUp(row, db'.queue.jobs[i], i, order, a.now, spared);
        } else if IsLive(row) {
          LiveIsBound(db, r);
          StillKeepsUp(row, DoCleanup(a.now, a.now), db.queue.jobs[i], db'.queue.jobs[i], i, spared, spared);
        } else {
          NotLiveKeepsUp(row, db'.queue.jobs[i], i, spared);
        }
      }
    }
  }

  lemma NoneServes(q: Queue, key: JobKey)
    requires !HasReusable(q, key)
    ensures !exists i :: i in q.jobs && Serves(q.jobs[i], key)
  {
    if i :| i in q.jobs && Serves(q.jobs[i], key) { ServesIsReusable(q, key, i); }
  }

  lemma FreshKeepsUp(r: Request, job: Job, i: JobId, order: Order, ts: Time, spared: set<JobId>)
    requires Fresh(job, order, ts)
    ensures KeepsUp(r, job, i, spared)
  {
  }

  /** Steps that change Request rows only. */
  lemma RowStepKeepsUp(db: Db, a: DbAction, spared: set<JobId>)
    requires DbInv(db) && AllKeepUp(db, spared) && Possible(db, a) && DispatcherAct(a) && !a.QueueAct? && !a.DispatchAct?
    ensures AllKeepUp(Transact(db, a), spared)
  {
    hide KeepsUp, DbInv, Projected, Allowed, FollowsJob, Certified;
    var db' := Transact(db, a);
    forall r | r in db'.requests && Bound(db', r)
      ensures KeepsUp(db'.requests[r], db'.queue.jobs[db'.requests[r].job.value], db'.requests[r].job.value, spared)
    {
      var row', i := db'.requests[r], db'.requests[r].job.value;
      if r !in db.requests || (a.TransitionAct? && r == a.id && row' != db.requests[r]) {
        assert !IsLive(row');
        NotLiveKeepsUp(row', db'.queue.jobs[i], i, spared);
      } else if row' != db.requests[r] {
        var row := db.requests[r];
        assert Bound(db, r) && row' == ProjectedRow(db, r, a.now);
        ProjectionFollows(row, row.job.value, db.queue.jobs[row.job.value], db.attestations, a.now);
        FollowedKeepsUp(row, row', i, db.queue.jobs[row.job.value], db.attestations, a.now, spared);
      }
    }
  }

  lemma StepKeepsUp(db: Db, a: DbAction, spared: set<JobId>)
    requires DbInv(db) && AllKeepUp(db, spared) && Possible(db, a) && DispatcherAct(a) && (a.QueueAct? ==> WellReported(a.a))
    ensures AllKeepUp(Transact(db, a), spared + LostInRestart(db, a))
  {
    hide DbInv, AllKeepUp, Transact, WellReported, DispatcherAct, Possible;
    if a.QueueAct? {
      QueueStepKeepsUp(db, a, spared);
    } else {
      assert spared + LostInRestart(db, a) == spared;
      if a.DispatchAct? { DispatchKeepsUp(db, a, spared); } else { RowStepKeepsUp(db, a, spared); }
    }
  }

  lemma {:induction false} AllKeepUpAlways(db: Db, acts: seq<DbAction>, spared: set<JobId>)
    requires DbInv(db) && AllKeepUp(db, spared) && CanRunDb(db, acts) && AllDispatcher(acts) && AllReportWell(acts)
    ensures AllKeepUp(AfterDb(db, acts), spared + LostInRestarts(db, acts))
    decreases |acts|
  {
    hide DbInv, AllKeepUp, Transact, WellReported, LostInRestart, NotAfter;
    if acts == [] {
      assert spared + LostInRestarts(db, acts) == spared;
    } else {
      assert DispatcherAct(acts[0]) && (acts[0].QueueAct? ==> WellReported(acts[0].a));
      assert AllReportWell(acts[1..]);
      TransactKeepsInv(db, acts[0]);
      StepKeepsUp(db, acts[0], spared);
      AllKeepUpAlways(Transact(db, acts[0]), acts[1..], spared + LostInRestart(db, acts[0]));
      assert spared + LostInRestarts(db, acts)
          == spared + LostInRestart(db, acts[0]) + LostInRestarts(Transact(db, acts[0]), acts[1..]);
    }
  }

  /**
   In every reachable state, as long as workers report sensible words: a Request whose job has ended and proves
   it has ended itself, unless the job was superseded or in work at a worker that was restarted; and a Request
   whose job runs is running.
   */
  lemma RequestsFollowTheirJobs(acts: seq<DbAction>, r: RequestId)
    requires CanRunDb(EMPTY_DB, acts) && AllDispatcher(acts) && AllReportWell(acts)
    requires r in AfterDb(EMPTY_DB, acts).requests && AfterDb(EMPTY_DB, acts).requests[r].job.Some?
    requires AfterDb(EMPTY_DB, acts).requests[r].job.value in AfterDb(EMPTY_DB, acts).queue.jobs
    ensures var db := AfterDb(EMPTY_DB, acts);
            var row, i := db.requests[r], db.requests[r].job.value;
            var job := db.queue.jobs[i];
            && (Proves(row, job) && HasEnded(job.status) && job.status != Superseded && i !in LostInRestarts(EMPTY_DB, acts) ==>
                row.state.Ended?)
            && (Proves(row, job) && job.status == Running ==> row.state == Executing || row.state.Ended?)
  {
    hide AfterDb, CanRunDb, LostInRestarts, Proves, DbInv;
    StartIsBound();
    var spared: set<JobId> := {};
    AllKeepUpAlways(EMPTY_DB, acts, spared);
    var db := AfterDb(EMPTY_DB, acts);
    assert spared + LostInRestarts(EMPTY_DB, acts) == LostInRestarts(EMPTY_DB, acts);
    assert KeepsUp(db.requests[r], db.queue.jobs[db.requests[r].job.value], db.requests[r].job.value, LostInRestarts(EMPTY_DB, acts));
    InvAlways(EMPTY_DB, acts);
    UnqueuedIsUnbound(db, r);
  }

  lemma UnqueuedIsUnbound(db: Db, r: RequestId)
    requires DbInv(db) && r in db.requests && db.requests[r].job.Some?
    ensures IsLive(db.requests[r]) || db.requests[r].state.Ended?
  {
    assert BindOk(db, r);
  }
}
