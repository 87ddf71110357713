/** The row-by-row writes of one transaction add up to its bulk specification. */
module BulkWrites {
  import opened LogStore
  import opened JobQueue
  import opened RequestStore

  // ---- Row selection ----

  lemma NotAfterIsTransitive(q: Queue, i: JobId, k: JobId, m: JobId)
    requires i in q.jobs && k in q.jobs && m in q.jobs && NotAfter(q, i, k) && NotAfter(q, k, m)
    ensures NotAfter(q, i, m)
  {
  }

  lemma {:induction false} FirstAmong(q: Queue, rows: set<JobId>) returns (i: JobId)
    requires rows != {} && rows <= q.jobs.Keys
    ensures i in rows && forall k :: k in rows ==> NotAfter(q, i, k)
    decreases |rows|
  {
    i :| i in rows;
    var rest := rows - {i};
    if rest != {} {
      var first := FirstAmong(q, rest);
      if !NotAfter(q, i, first) {
        i := first;
      } else {
        forall k | k in rest ensures NotAfter(q, i, k) { NotAfterIsTransitive(q, i, first, k); }
      }
    }
  }

  /** The scheduling query returns a row exactly when some row is takeable. */
  lemma PickExists(q: Queue, profiles: seq<string>)
    ensures (exists i :: IsPick(q, profiles, i)) <==> (exists k :: Takeable(q, profiles, k))
  {
    var rows := set i | i in q.jobs && Takeable(q, profiles, i);
    assert forall i :: Takeable(q, profiles, i) <==> i in rows;
    if rows != {} {
      hide Takeable, NotAfter;
      var i := FirstAmong(q, rows);
      assert IsPick(q, profiles, i);
    }
  }

  lemma {:induction false} NewestAmong(q: Queue, rows: set<JobId>) returns (i: JobId)
    requires rows != {} && rows <= q.jobs.Keys
    ensures i in rows && NoneNewer(q, rows, i)
    decreases |rows|
  {
    var first :| first in rows;
    var rest := rows - {first};
    assert rows == rest + {first};
    if rest == {} {
      i := first;
    } else {
      var newest := NewestAmong(q, rest);
      i := if q.jobs[newest].createdAt > q.jobs[first].createdAt then newest else first;
    }
  }

  ghost predicate NoneNewer(q: Queue, rows: set<JobId>, i: JobId)
    requires rows <= q.jobs.Keys && i in q.jobs
  {
    forall k :: k in rows ==> q.jobs[k].createdAt <= q.jobs[i].createdAt
  }

  lemma NewestExists(q: Queue, key: JobKey)
    requires HasReusable(q, key)
    ensures exists i :: NewestReusable(q, key, i)
  {
    var rows := set i | i in q.jobs && Reusable(q, key, i);
    var k :| k in q.jobs && Reusable(q, key, k);
    assert k in rows;
    var i := NewestAmong(q, rows);
    assert NewestReusable(q, key, i);
  }

  /** The idempotency read returns a row exactly when some row is reusable. */
  lemma NewestExistsIff(q: Queue, key: JobKey)
    ensures HasReusable(q, key) <==> exists i :: i in q.jobs && NewestReusable(q, key, i)
  {
    if HasReusable(q, key) { NewestExists(q, key); }
  }

  // ---- Recovery, one row at a time ----

  function RecoverOne(q: Queue, i: JobId, ts: Time): Queue
    requires i in q.jobs
  {
    var job := q.jobs[i];
    q.(jobs := q.jobs[i := Recovered(job, ts)],
       repos := Upsert(q.repos, job.order.repository, if Requeues(job) then 1 else 0, -1, None))
  }

  lemma RecoverNothing(q: Queue, ts: Time)
    ensures RecoverRows(q, {}, ts) == q
  {
    forall r ensures InRepo(q, {}, r) == {} && InRepo(q, Requeued(q, {}), r) == {} {
    }
    assert RecoverRows(q, {}, ts).repos == q.repos;
  }

  /** What recovering a set of rows leaves in the queue row of repository r. */
  lemma RecoveredRepo(q: Queue, rows: set<JobId>, ts: Time, r: string)
    ensures r in RecoverRows(q, rows, ts).repos <==> r in q.repos || InRepo(q, rows, r) != {}
    ensures Row(RecoverRows(q, rows, ts).repos, r)
         == RepoRow(Row(q.repos, r).lastDispatched, Clamped(Row(q.repos, r).running, -|InRepo(q, rows, r)|),
                    Clamped(Row(q.repos, r).queued, |InRepo(q, Requeued(q, rows), r)|))
  {
    hide Recovered, Requeues;
    var touched := set i | i in rows && i in q.jobs :: q.jobs[i].order.repository;
    if r in touched {
      var i :| i in rows && i in q.jobs && q.jobs[i].order.repository == r;
      assert i in InRepo(q, rows, r);
    } else {
      assert InRepo(q, rows, r) == {} && InRepo(q, Requeued(q, rows), r) == {};
    }
  }

  lemma InRepoOneMore(q: Queue, rows: set<JobId>, i: JobId, r: string)
    requires i in q.jobs && i !in rows
    ensures var here := q.jobs[i].order.repository == r;
            && |InRepo(q, rows + {i}, r)| == |InRepo(q, rows, r)| + (if here then 1 else 0)
            && (InRepo(q, rows + {i}, r) == {} <==> !here && InRepo(q, rows, r) == {})
            && |InRepo(q, Requeued(q, rows + {i}), r)|
            == |InRepo(q, Requeued(q, rows), r)| + (if here && Requeues(q.jobs[i]) then 1 else 0)
  {
    InRepoAfter(q, rows, i, r);
    if Requeues(q.jobs[i]) {
      assert Requeued(q, rows + {i}) == Requeued(q, rows) + {i};
      InRepoAfter(q, Requeued(q, rows), i, r);
    } else {
      assert Requeued(q, rows + {i}) == Requeued(q, rows);
    }
  }

  lemma InRepoAfter(q: Queue, rows: set<JobId>, i: JobId, r: string)
    requires i in q.jobs && i !in rows
    ensures var here := q.jobs[i].order.repository == r;
            && |InRepo(q, rows + {i}, r)| == |InRepo(q, rows, r)| + (if here then 1 else 0)
            && (InRepo(q, rows + {i}, r) == {} <==> !here && InRepo(q, rows, r) == {})
  {
    if q.jobs[i].order.repository == r {
      assert InRepo(q, rows + {i}, r) == InRepo(q, rows, r) + {i};
      assert i in InRepo(q, rows + {i}, r);
    } else {
      assert InRepo(q, rows + {i}, r) == InRepo(q, rows, r);
    }
  }

  lemma RecoverRepoOneMore(q: Queue, rows: set<JobId>, i: JobId, ts: Time, r: string)
    requires i in q.jobs && i !in rows && i in RecoverRows(q, rows, ts).jobs && RecoverRows(q, rows, ts).jobs[i] == q.jobs[i]
    ensures var left, right := RecoverRows(q, rows + {i}, ts).repos, RecoverOne(RecoverRows(q, rows, ts), i, ts).repos;
            (r in left <==> r in right) && (r in left ==> left[r] == right[r])
  {
    hide RecoverRows, Recovered, InRepo, Requeued, Requeues, Clamped;
    var mid := RecoverRows(q, rows, ts).repos;
    InRepoOneMore(q, rows, i, r);
    RecoveredRepo(q, rows, ts, r);
    RecoveredRepo(q, rows + {i}, ts, r);
    ClampedTwice(Row(q.repos, r).running, |InRepo(q, rows, r)|);
    ClampedUp(Row(q.repos, r).queued, |InRepo(q, Requeued(q, rows), r)|);
  }

  lemma ClampedTwice(x: nat, n: nat)
    ensures Clamped(Clamped(x, 0 - n), -1) == Clamped(x, 0 - n - 1)
    ensures forall y: nat {:trigger Clamped(y, 0)} :: Clamped(y, 0) == y
  {
  }

  lemma ClampedUp(x: nat, n: nat)
    ensures Clamped(Clamped(x, n), 1) == Clamped(x, n + 1) && Clamped(Clamped(x, n), 0) == Clamped(x, n)
  {
  }

  lemma RecoverReposOneMore(q: Queue, rows: set<JobId>, i: JobId, ts: Time)
    requires i in q.jobs && i !in rows && i in RecoverRows(q, rows, ts).jobs && RecoverRows(q, rows, ts).jobs[i] == q.jobs[i]
    ensures RecoverRows(q, rows + {i}, ts).repos == RecoverOne(RecoverRows(q, rows, ts), i, ts).repos
  {
    hide RecoverRows, RecoverOne;
    var left, right := RecoverRows(q, rows + {i}, ts).repos, RecoverOne(RecoverRows(q, rows, ts), i, ts).repos;
    forall r ensures r in left <==> r in right ensures r in left ==> left[r] == right[r] {
      RecoverRepoOneMore(q, rows, i, ts, r);
    }
  }

  /** Recovering row by row is recovering the set: the clamped counters add up. */
  lemma RecoverOneMore(q: Queue, rows: set<JobId>, i: JobId, ts: Time)
    requires i in q.jobs && i !in rows
    ensures var before, after := RecoverRows(q, rows, ts), RecoverRows(q, rows + {i}, ts);
            && i in before.jobs && after == RecoverOne(before, i, ts)
            && after.jobs.Keys == before.jobs.Keys
            && (forall k :: k in rows && k in before.jobs ==> after.jobs[k] == before.jobs[k])
  {
    hide Recovered, Requeues, InRepo, Requeued, Row, Upsert, Clamped;
    assert RecoverRows(q, rows + {i}, ts).jobs == RecoverOne(RecoverRows(q, rows, ts), i, ts).jobs;
    RecoverReposOneMore(q, rows, i, ts);
  }

  // ---- Supersede, one row at a time ----

  function SupersedeOne(q: Queue, i: JobId, successor: JobId, ts: Time): Queue
    requires i in q.jobs
  {
    q.(jobs := q.jobs[i := Unleased(q.jobs[i], Superseded).(supersededBy := Some(successor), finishedAt := Some(ts))],
       repos := Upsert(q.repos, q.jobs[i].order.repository, -1, 0, None))
  }

  lemma SupersedeNothing(q: Queue, successor: JobId, repository: string, ts: Time)
    ensures Supersede(q, {}, successor, repository, ts) == q
  {
    assert Supersede(q, {}, successor, repository, ts).jobs == q.jobs;
  }

  lemma SupersedeOneMore(q: Queue, rows: set<JobId>, i: JobId, successor: JobId, repository: string, ts: Time)
    requires i in q.jobs && i !in rows && q.jobs[i].order.repository == repository
    ensures var before := Supersede(q, rows, successor, repository, ts);
            i in before.jobs && Supersede(q, rows + {i}, successor, repository, ts) == SupersedeOne(before, i, successor, ts)
  {
    hide Upsert, Unleased;
    var left, right := Supersede(q, rows + {i}, successor, repository, ts),
                       SupersedeOne(Supersede(q, rows, successor, repository, ts), i, successor, ts);
    assert left.jobs == right.jobs;
    var n := |rows|;
    assert |rows + {i}| == n + 1;
    if rows == {} { assert rows + {i} == {i}; }
    UpsertTwice(q.repos, repository, n);
    assert left.repos == Upsert(q.repos, repository, 0 - n - 1, 0, None);
  }

  /** Taking one more off a counter that n were taken off is taking n+1 off. */
  lemma UpsertTwice(repos: map<string, RepoRow>, r: string, n: nat)
    ensures Upsert(Upsert(repos, r, 0 - n, 0, None), r, -1, 0, None) == Upsert(repos, r, 0 - n - 1, 0, None)
  {
    var row := Row(repos, r);
    ClampedTwice(row.queued, n);
    hide Clamped;
    var once := RepoRow(row.lastDispatched, Clamped(row.running, 0), Clamped(row.queued, 0 - n));
    assert Upsert(repos, r, 0 - n, 0, None) == repos[r := once];
    assert Row(repos[r := once], r) == once;
  }

  // ---- Reconciliation, one job at a time ----

  /** UNIQUE(worker_job_id). */
  ghost predicate UniqueBindings(requests: map<RequestId, Request>) {
    forall r, s :: r in requests && s in requests && r != s && requests[r].job.Some? ==> requests[r].job != requests[s].job
  }

  /** Giving a row a job that no other row holds keeps the index unique. */
  lemma BindingKeepsUnique(requests: map<RequestId, Request>, id: RequestId, row: Request)
    requires UniqueBindings(requests)
    requires row.job.Some? ==> forall r :: r in requests && r != id ==> requests[r].job != row.job
    ensures UniqueBindings(requests[id := row])
  {
  }

  lemma ProjectedKeepsJob(r: Request, id: JobId, job: Job, rows: seq<Attestation>, now: Time)
    ensures Projected(r, id, job, rows, now).job == r.job
    ensures Projected(r, id, job, rows, now) == r || Projected(r, id, job, rows, now).revision == r.revision + 1
  {
    hide Evidence, Matching;
  }

  lemma ReconcileKeepsUnique(db: Db, jobs: set<JobId>, now: Time)
    requires UniqueBindings(db.requests)
    ensures UniqueBindings(Reconcile(db, jobs, now).requests)
  {
    hide Projected;
    var after := Reconcile(db, jobs, now).requests;
    forall r | r in after ensures after[r].job == db.requests[r].job {
      if Bound(db, r) {
        ProjectedKeepsJob(db.requests[r], db.requests[r].job.value, db.queue.jobs[db.requests[r].job.value], db.attestations, now);
      }
    }
  }

  lemma ReconcileKeepsQueue(db: Db, jobs: set<JobId>, now: Time)
    ensures Reconcile(db, jobs, now).queue == db.queue
  {
  }

  lemma ReconcileNothing(db: Db, now: Time)
    ensures Reconcile(db, {}, now) == db
  {
    assert Reconcile(db, {}, now).requests == db.requests;
  }

  /** Only the Request that holds the job can change when one job is reconciled. */
  lemma ReconcileOneRow(db: Db, job: JobId, r: RequestId, now: Time)
    requires UniqueBindings(db.requests) && r in db.requests && db.requests[r].job == Some(job)
    ensures Reconcile(db, {job}, now) == db.(requests := db.requests[r := ProjectedRow(db, r, now)])
  {
    assert Reconcile(db, {job}, now).requests == db.requests[r := ProjectedRow(db, r, now)];
  }

  lemma ReconcileNoRow(db: Db, job: JobId, now: Time)
    requires forall r :: r in db.requests ==> db.requests[r].job != Some(job)
    ensures Reconcile(db, {job}, now) == db
  {
    assert Reconcile(db, {job}, now).requests == db.requests;
  }

  /** Writing job i and reconciling it after `done` were reconciled is writing all and reconciling all. */
  lemma ReconcileOneMore(db: Db, q: Queue, q': Queue, done: set<JobId>, i: JobId, now: Time)
    requires i !in done && q'.jobs.Keys == q.jobs.Keys
    requires forall k :: k in done && k in q.jobs ==> q'.jobs[k] == q.jobs[k]
    ensures Reconcile(Reconcile(db.(queue := q), done, now).(queue := q'), {i}, now)
         == Reconcile(db.(queue := q'), done + {i}, now)
  {
    hide Projected;
    var mid := Reconcile(db.(queue := q), done, now);
    var left, right := Reconcile(mid.(queue := q'), {i}, now), Reconcile(db.(queue := q'), done + {i}, now);
    forall r | r in db.requests ensures left.requests[r] == right.requests[r] {
      var row := db.requests[r];
      if row.job.Some? && row.job.value in q.jobs {
        ProjectedKeepsJob(row, row.job.value, q.jobs[row.job.value], db.attestations, now);
      }
    }
    assert left.requests == right.requests;
  }

  // ---- Startup repair, one job at a time ----

  /** Repairing is reconciling the bound jobs of the rows that need it. */
  lemma RepairIsReconcile(db: Db, jobs: set<JobId>, now: Time)
    requires UniqueBindings(db.requests)
    requires jobs == set r | r in db.requests && NeedsRepair(db.requests[r]) :: db.requests[r].job.value
    ensures Repair(db, now) == Reconcile(db, jobs, now)
  {
    hide ProjectedRow;
    forall r | r in db.requests && db.requests[r].job.Some?
      ensures db.requests[r].job.value in jobs <==> NeedsRepair(db.requests[r])
    {
      if db.requests[r].job.value in jobs {
        var s :| s in db.requests && NeedsRepair(db.requests[s]) && db.requests[s].job.value == db.requests[r].job.value;
        assert s == r;
      }
    }
    assert Repair(db, now).requests == Reconcile(db, jobs, now).requests;
  }

  ghost function Changed(before: map<RequestId, Request>, after: map<RequestId, Request>): set<RequestId> {
    set r | r in before && r in after && before[r] != after[r]
  }

  /** Reconciling one more job changes one more Request or nothing at all. */
  lemma ChangedOneMore(db: Db, done: set<JobId>, i: JobId, now: Time)
    requires UniqueBindings(db.requests) && i !in done
    ensures var mid, after := Reconcile(db, done, now), Reconcile(db, done + {i}, now); (
            |Changed(db.requests, after.requests)|
         == |Changed(db.requests, mid.requests)| + (if after == mid then 0 else 1))
  {
    hide ProjectedRow;
    var mid, after := Reconcile(db, done, now), Reconcile(db, done + {i}, now);
    if r :| r in db.requests && db.requests[r].job == Some(i) {
      assert mid.requests[r] == db.requests[r];
      forall s | s in db.requests && s != r ensures after.requests[s] == mid.requests[s] {
      }
      if after.requests[r] == mid.requests[r] {
        assert after.requests == mid.requests;
      } else {
        assert Changed(db.requests, after.requests) == Changed(db.requests, mid.requests) + {r};
      }
    } else {
      assert after.requests == mid.requests;
    }
  }
}
