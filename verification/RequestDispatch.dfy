/**
 The background dispatcher: it reads a Request, runs preflight outside any transaction, and writes
 back through compare-and-swap transitions. Preflight is an arbitrary result.
 */
module RequestDispatch {
  import opened LogStore
  import opened JobQueue
  import opened RequestStore
  import opened RequestSafety
  import opened BulkWrites
  import opened CiDatabase
  import opened DispatchSafety
  import opened PendingRequests

  datatype Preflight = Passes(tree: string) | Fails(code: string)

  const NOTHING := Metadata("", "", "", "")

  /** Every failure code carries this prefix, so it is never empty. */
  function PreflightCode(code: string): string { "CI_PREFLIGHT_" + code }

  /** The first transaction: accepted becomes preparing; a lost race re-reads the row. */
  method BeginPreparing(db: Database, id: RequestId, now: Time)
    returns (snapshot: Option<Request>, ghost acts: seq<DbAction>)
    requires db.Valid()
    modifies db
    ensures db.Valid() && AllDispatcher(acts) && CanRunDb(old(db.View()), acts) && db.View() == AfterDb(old(db.View()), acts)
    ensures snapshot == if id in db.requests then Some(db.requests[id]) else None
    ensures (id in old(db.requests) ==> !old(db.requests[id]).state.Accepted?) ==> db.View() == old(db.View())
    ensures DbInv(old(db.View())) && id in old(db.requests) && old(db.requests[id]).state.Accepted? ==>
              id in db.requests && db.requests[id].state.Preflighting?
  {
    hide SameIdentity, Unclaimed, DbInv, Projected, Next;
    acts := [];
    if id !in db.requests { return None, acts; }
    var request := db.requests[id];
    if request.state.Accepted? {
      var a := TransitionAct(id, request.revision, Preflighting, None, NOTHING, now);
      ghost var before := db.View();
      acts := [a];
      OneStep(before, a);
      if DbInv(before) { AcceptedIsUnbound(before, id); }
      var _ := db.TransitionCiRequest(id, request.revision, Preflighting, None, NOTHING, now);
    }
    snapshot := Some(db.requests[id]);
  }

  lemma OneStep(db: Db, a: DbAction)
    requires Possible(db, a) && DispatcherAct(a)
    ensures AllDispatcher([a]) && CanRunDb(db, [a]) && AfterDb(db, [a]) == Transact(db, a)
  {
    hide Transact, NotAfter;
    assert [a][1..] == [];
    assert CanRunDb(Transact(db, a), []);
    assert AfterDb(Transact(db, a), []) == Transact(db, a);
  }

  lemma AcceptedIsUnbound(db: Db, id: RequestId)
    requires DbInv(db) && id in db.requests && Unqueued(db.requests[id].state)
    ensures db.requests[id].job.None?
  {
    assert BindOk(db, id);
  }

  /** A dispatcher's snapshot is current when nothing advanced the row since it was read. */
  predicate Current(db: Db, id: RequestId, snapshot: Request) {
    id in db.requests && db.requests[id].revision == snapshot.revision && db.requests[id].state.Preflighting?
  }

  /**
   The second transaction, after preflight, from a snapshot that may be stale by any number of steps.
   A stale snapshot changes nothing. A current one turns a failed preflight into preflight_failed, and a
   passed one into queued exactly when the dispatch transaction accepts it; else the row stays preparing.
   */
  method FinishPreparing(db: Database, id: RequestId, snapshot: Request, preflight: Preflight, newJob: JobId, now: Time)
    returns (ghost act: DbAction)
    requires db.Valid()
    modifies db
    ensures db.Valid() && DispatcherAct(act) && Possible(old(db.View()), act) && db.View() == Transact(old(db.View()), act)
    ensures !Current(old(db.View()), id, snapshot) ==> db.View() == old(db.View())
    ensures DbInv(old(db.View())) && Current(old(db.View()), id, snapshot) ==>
              id in db.requests
              && match preflight
                 case Fails(code) =>
                   db.requests[id].state == Ended(DidFailPreflight) && db.requests[id].preflightError == "CI_PREFLIGHT_" + code
                 case Passes(tree) =>
                   act.DispatchAct?
                   && if DispatchOutcomeOf(old(db.View()), id, snapshot.revision, tree, newJob, act.reused).Dispatched?
                      then db.requests[id].state.Enqueued? && db.requests[id].identity.tree == tree
                      else db.View() == old(db.View())
  {
    hide SameIdentity, Unclaimed, DbInv, Projected, Next, CreateOrGet, Reusable, NewestReusable;
    match preflight
    case Fails(code) =>
      var m := NOTHING.(preflightCode := PreflightCode(code));
      act := TransitionAct(id, snapshot.revision, Ended(DidFailPreflight), None, m, now);
      if DbInv(db.View()) && Current(db.View(), id, snapshot) { AcceptedIsUnbound(db.View(), id); }
      var _ := db.TransitionCiRequest(id, snapshot.revision, Ended(DidFailPreflight), None, m, now);
    case Passes(tree) =>
      var _, reused := db.DispatchCiRequest(id, snapshot.revision, tree, newJob, now);
      act := DispatchAct(id, snapshot.revision, tree, newJob, reused, now);
  }

  /**
   process_ci_request run without interference: a pending Request leaves the pending states unless
   dispatch refuses it, and every write is one the safety theorems cover.
   */
  method ProcessCiRequest(db: Database, id: RequestId, preflight: Preflight, newJob: JobId, now: Time)
    returns (ghost acts: seq<DbAction>)
    requires db.Valid() && DbInv(db.View())
    modifies db
    ensures db.Valid() && DbInv(db.View())
    ensures AllDispatcher(acts) && CanRunDb(old(db.View()), acts) && db.View() == AfterDb(old(db.View()), acts)
    ensures id !in old(db.requests) || !Pending(old(db.requests[id]).state) ==> db.View() == old(db.View())
    ensures id in old(db.requests) && Pending(old(db.requests[id]).state) && preflight.Fails? ==>
              id in db.requests && db.requests[id].state == Ended(DidFailPreflight) && db.requests[id].job.None?
    ensures id in old(db.requests) && Pending(old(db.requests[id]).state) && preflight.Passes? ==>
              id in db.requests && (db.requests[id].state.Preflighting? || db.requests[id].state.Enqueued?)
  {
    hide DbInv, Transact, DispatcherAct, Possible;
    var snapshot;
    snapshot, acts := BeginPreparing(db, id, now);
    InvAlways(old(db.View()), acts);
    if snapshot.None? || !snapshot.value.state.Preflighting? { return; }
    ghost var mid := db.View();
    ghost var act := FinishPreparing(db, id, snapshot.value, preflight, newJob, now);
    RunsCompose(old(db.View()), acts, act);
    acts := acts + [act];
    InvAlways(old(db.View()), acts);
    if preflight.Fails? { AcceptedIsUnbound(db.View(), id); }
  }

  lemma {:induction false} RunsCompose(db: Db, acts: seq<DbAction>, a: DbAction)
    requires AllDispatcher(acts) && CanRunDb(db, acts) && Possible(AfterDb(db, acts), a) && DispatcherAct(a)
    ensures AllDispatcher(acts + [a]) && CanRunDb(db, acts + [a])
    ensures AfterDb(db, acts + [a]) == Transact(AfterDb(db, acts), a)
    decreases |acts|
  {
    hide Transact, DispatcherAct, NotAfter;
    if acts == [] {
      assert acts + [a] == [a];
      OneStep(db, a);
    } else {
      assert (acts + [a])[1..] == acts[1..] + [a] && (acts + [a])[0] == acts[0];
      assert AllDispatcher(acts[1..]);
      RunsCompose(Transact(db, acts[0]), acts[1..], a);
    }
  }

  // ---- Scheduling ----

  /** The process-wide wake-up queue: an id is in it, or being processed, at most once. */
  class Scheduler {
    var waiting: seq<RequestId>
    var scheduled: set<RequestId>

    ghost predicate Valid()
      reads this
    {
      && (forall k :: 0 <= k < |waiting| ==> waiting[k] in scheduled)
      && (forall j, k :: 0 <= j < k < |waiting| ==> waiting[j] != waiting[k])
    }

    constructor ()
      ensures Valid() && waiting == [] && scheduled == {}
    {
      waiting, scheduled := [], {};
    }

    method Schedule(id: RequestId) returns (added: bool)
      requires Valid()
      modifies this
      ensures Valid() && id in scheduled && scheduled == old(scheduled) + {id}
      ensures added <==> id !in old(scheduled)
      ensures waiting == old(waiting) + if added then [id] else []
    {
      added := id !in scheduled;
      if added {
        scheduled := scheduled + {id};
        waiting := waiting + [id];
      }
    }

    /** What a worker takes stays scheduled until it is done, so it cannot be queued twice meanwhile. */
    method Take() returns (id: RequestId)
      requires Valid() && waiting != []
      modifies this`waiting
      ensures Valid() && [id] + waiting == old(waiting) && id in scheduled
    {
      id := waiting[0];
      waiting := waiting[1..];
    }

    method Done(id: RequestId)
      requires Valid() && id !in waiting
      modifies this`scheduled
      ensures Valid() && scheduled == old(scheduled) - {id}
    {
      scheduled := scheduled - {id};
    }

    /**
     recover_pending_ci_requests: the listed ids that are not scheduled yet are queued, oldest first. So a
     pending Request is scheduled afterwards exactly when it was before or fewer than the limit are ahead of it.
     */
    method RecoverPending(db: Database, limit: int) returns (pending: nat, count: nat)
      requires Valid()
      modifies this
      ensures pending == if |PendingIds(db.requests)| < Limit(limit) then |PendingIds(db.requests)| else Limit(limit)
      ensures Valid() && unchanged(db) && count == |scheduled| - |old(scheduled)|
      ensures old(waiting) <= waiting && |waiting| == |old(waiting)| + count
      ensures forall r :: r in PendingIds(db.requests) ==>
                (r in scheduled <==> r in old(scheduled) || |Ahead(db.requests, r)| < Limit(limit))
      ensures forall r :: r in scheduled ==> r in old(scheduled) || r in PendingIds(db.requests)
      ensures forall j, k :: |old(waiting)| <= j < k < |waiting| ==>
                waiting[j] in db.requests && waiting[k] in db.requests && Before(db.requests, waiting[j], waiting[k])
      ensures old(scheduled) == {} ==>
                ((forall r :: r in PendingIds(db.requests) ==> r in scheduled) <==> |PendingIds(db.requests)| <= Limit(limit))
    {
      hide Before, Ahead;
      var rows := db.ListPendingCiRequests(limit);
      count := ScheduleAll(rows);
      pending := |rows|;
      OrderIsKept(db.requests, rows, old(scheduled));
      forall r | r in PendingIds(db.requests)
        ensures r in scheduled <==> r in old(scheduled) || |Ahead(db.requests, r)| < Limit(limit)
      {
        PageHolds(db.requests, limit, rows, r);
      }
      PageHoldsAllIff(db.requests, limit, rows);
    }

    /** What is queued keeps the order in which it was handed in. */
    method ScheduleAll(rows: seq<RequestId>) returns (count: nat)
      requires Valid()
      modifies this
      ensures Valid() && forall r :: r in scheduled <==> r in old(scheduled) || r in rows
      ensures count == |scheduled| - |old(scheduled)|
      ensures waiting == old(waiting) + Unscheduled(rows, old(scheduled)) && |waiting| == |old(waiting)| + count
    {
      hide Unscheduled;
      count := 0;
      UnscheduledGrows(rows, old(scheduled), 0);
      for k := 0 to |rows|
        invariant Valid()
        invariant forall r :: r in scheduled <==> r in old(scheduled) || r in rows[..k]
        invariant count == |scheduled| - |old(scheduled)|
        invariant waiting == old(waiting) + Unscheduled(rows[..k], old(scheduled)) && |waiting| == |old(waiting)| + count
      {
        UnscheduledGrows(rows, old(scheduled), k);
        ghost var was := scheduled;
        var added := Schedule(rows[k]);
        if added { count := count + 1; } else { assert scheduled == was; }
      }
      assert rows[..|rows|] == rows;
    }
  }

  /** The rows that are queued: each at its first place, unless it is scheduled already. */
  function Unscheduled(rows: seq<RequestId>, scheduled: set<RequestId>): seq<RequestId> {
    if rows == [] then []
    else
      var init, last := rows[..|rows| - 1], rows[|rows| - 1];
      Unscheduled(init, scheduled) + if last in scheduled || last in init then [] else [last]
  }

  lemma UnscheduledGrows(rows: seq<RequestId>, scheduled: set<RequestId>, k: nat)
    requires k <= |rows|
    ensures rows[..0] == [] && Unscheduled([], scheduled) == []
    ensures k < |rows| ==>
              && rows[..k + 1] == rows[..k] + [rows[k]]
              && Unscheduled(rows[..k + 1], scheduled)
                 == Unscheduled(rows[..k], scheduled) + if rows[k] in scheduled || rows[k] in rows[..k] then [] else [rows[k]]
  {
    if k < |rows| { assert rows[..k + 1][..k] == rows[..k]; }
  }

  lemma {:induction false} OrderIsKept(requests: map<RequestId, Request>, rows: seq<RequestId>, scheduled: set<RequestId>)
    requires forall r :: r in rows ==> r in requests
    requires forall j, k :: 0 <= j < k < |rows| ==> Before(requests, rows[j], rows[k])
    ensures var u := Unscheduled(rows, scheduled);
            && (forall r :: r in u ==> r in rows)
            && (forall j, k :: 0 <= j < k < |u| ==> Before(requests, u[j], u[k]))
    decreases |rows|
  {
    hide Before;
    if rows != [] {
      var init, last := rows[..|rows| - 1], rows[|rows| - 1];
      OrderIsKept(requests, init, scheduled);
      forall r | r in init ensures r in rows && Before(requests, r, last) {
        var j :| 0 <= j < |init| && init[j] == r;
        assert rows[j] == r;
      }
    }
  }
}
