/** What every transaction keeps of the Request rows, their events and their Worker Jobs. */
module RequestSafety {
  import opened LogStore
  import opened JobQueue
  import opened QueueRuns
  import opened RequestStore

  // ---- Event histories ----

  /** Event k continues event k-1: same state in between, no lower rank, and nothing leaves the end. */
  ghost predicate Follows(events: seq<Event>, k: nat)
    requires 0 < k < |events|
  {
    var before, after := events[k - 1].target, events[k].target;
    && events[k].source == Some(before)
    && Rank(before) <= Rank(after)
    && (before.Ended? ==> after == before)
  }

  /** The events number 0..revision without a gap and replay to the state of the row. */
  ghost predicate HistoryOk(r: Request) {
    && |r.events| == r.revision + 1
    && (forall k {:trigger r.events[k].revision} :: 0 <= k < |r.events| ==> r.events[k].revision == k)
    && r.events[0].source == None && r.events[0].target == Accepted
    && (forall k {:trigger Follows(r.events, k)} :: 0 < k < |r.events| ==> Follows(r.events, k))
    && r.events[r.revision].target == r.state
  }

  /** A legal advance of one row, with whatever else the same UPDATE writes. */
  ghost predicate Advances(r: Request, r': Request) {
    exists kind, to ::
      && Rank(r.state) <= Rank(to) && (r.state.Ended? ==> to == r.state)
      && r'.events == Advance(r, kind, to).events && r'.state == to && r'.revision == r.revision + 1
  }

  /** What one transaction may do to a row: keep its history, or append one legal event. */
  ghost predicate RowMove(r: Request, r': Request) {
    (r'.events == r.events && r'.state == r.state && r'.revision == r.revision) || Advances(r, r')
  }

  lemma MoveKeepsHistory(r: Request, r': Request)
    requires HistoryOk(r) && RowMove(r, r')
    ensures HistoryOk(r') && r.events <= r'.events
    ensures r.state.Ended? ==> r'.state == r.state
    ensures Rank(r.state) <= Rank(r'.state)
  {
    if r'.events != r.events {
      var n := |r.events|;
      forall k | 0 < k < n + 1 ensures Follows(r'.events, k) {
        if k < n { assert Follows(r.events, k); }
      }
    }
  }

  lemma ProjectionMoves(r: Request, id: JobId, job: Job, rows: seq<Attestation>, now: Time)
    ensures RowMove(r, Projected(r, id, job, rows, now))
  {
    hide Matching, Evidence;
    var r' := Projected(r, id, job, rows, now);
    if r' != r {
      var to := r'.state;
      assert r'.events == Advance(r, r'.events[|r.events|].kind, to).events;
    }
  }

  lemma TransitionMoves(db: Db, a: DbAction)
    requires a.TransitionAct? && a.id in db.requests
    ensures RowMove(db.requests[a.id], Transact(db, a).requests[a.id])
  {
    hide SameIdentity, Unclaimed, MetadataFits;
    var r, r' := db.requests[a.id], Transact(db, a).requests[a.id];
    if Transact(db, a) != db {
      assert r'.events == Advance(r, Transitioned, a.to).events;
    }
  }

  lemma DispatchMoves(db: Db, a: DbAction)
    requires a.DispatchAct? && a.id in db.requests
    ensures RowMove(db.requests[a.id], Transact(db, a).requests[a.id])
  {
    hide SameIdentity, Unclaimed, CreateOrGet, HasReusable, JobFor;
    var r, r' := db.requests[a.id], Transact(db, a).requests[a.id];
    if Transact(db, a) != db {
      assert r'.events == Advance(r, WorkerQueued, Enqueued).events;
    }
  }

  lemma StepMovesRow(db: Db, a: DbAction, id: RequestId)
    requires Possible(db, a) && id in db.requests
    ensures id in Transact(db, a).requests && RowMove(db.requests[id], Transact(db, a).requests[id])
  {
    hide RowMove, Projected, Next, TransitionOutcomeOf, DispatchOutcomeOf, CreateOutcomeOf;
    var r := db.requests[id];
    SameRowMoves(r);
    match a
    case QueueAct(qa) =>
      var q := Next(db.queue, qa);
      if r.job.Some? && r.job.value in q.jobs {
        ProjectionMoves(r, r.job.value, q.jobs[r.job.value], db.attestations, qa.now);
      }
      UnbindingMoves(r);
    case TransitionAct(i, _, _, _, _, _) => if i == id { TransitionMoves(db, a); }
    case DispatchAct(i, _, _, _, _, _) => if i == id { DispatchMoves(db, a); }
    case CreateAct(_, _, _, _, _, _, _) => CreateKeepsRows(db, a, id);
    case AttestAct(_, _) =>
    case _ =>
      if Bound(db, id) {
        ProjectionMoves(r, r.job.value, db.queue.jobs[r.job.value], db.attestations, a.now);
      }
  }

  lemma SameRowMoves(r: Request)
    ensures RowMove(r, r)
  {
  }

  lemma UnbindingMoves(r: Request)
    ensures RowMove(r, r.(job := None))
  {
  }

  lemma CreateKeepsRows(db: Db, a: DbAction, id: RequestId)
    requires a.CreateAct? && id in db.requests
    ensures id in Transact(db, a).requests && Transact(db, a).requests[id] == db.requests[id]
  {
  }

  lemma NewRowsAreCreated(db: Db, a: DbAction, id: RequestId)
    requires Possible(db, a) && id !in db.requests && id in Transact(db, a).requests
    ensures a.CreateAct? && a.id == id
    ensures Transact(db, a) == db.(requests := db.requests[id := NewRequest(a.identity, a.key, a.hash, a.payload, a.now)])
  {
    hide Projected, Next, Allowed, SameIdentity;
  }

  // ---- Runs ----

  ghost predicate CanRunDb(db: Db, acts: seq<DbAction>)
    decreases |acts|
  {
    acts == [] || (Possible(db, acts[0]) && CanRunDb(Transact(db, acts[0]), acts[1..]))
  }

  ghost function AfterDb(db: Db, acts: seq<DbAction>): Db
    requires CanRunDb(db, acts)
    decreases |acts|
  {
    if acts == [] then db else AfterDb(Transact(db, acts[0]), acts[1..])
  }

  ghost predicate Histories(db: Db) { forall id :: id in db.requests ==> HistoryOk(db.requests[id]) }

  lemma StepKeepsHistories(db: Db, a: DbAction)
    requires Histories(db) && Possible(db, a)
    ensures Histories(Transact(db, a))
  {
    hide Transact, HistoryOk, RowMove;
    forall id | id in Transact(db, a).requests ensures HistoryOk(Transact(db, a).requests[id]) {
      if id in db.requests {
        StepMovesRow(db, a, id);
        MoveKeepsHistory(db.requests[id], Transact(db, a).requests[id]);
      } else {
        NewRowsAreCreated(db, a, id);
        NewHistoryOk(a.identity, a.key, a.hash, a.payload, a.now);
      }
    }
  }

  lemma NewHistoryOk(n: Identity, key: string, hash: string, payload: Option<Payload>, ts: Time)
    ensures HistoryOk(NewRequest(n, key, hash, payload, ts))
  {
  }

  /** In every reachable state every Request's events replay to its row. */
  lemma {:induction false} HistoriesAlways(db: Db, acts: seq<DbAction>)
    requires Histories(db) && CanRunDb(db, acts)
    ensures Histories(AfterDb(db, acts))
    decreases |acts|
  {
    if acts != [] {
      StepKeepsHistories(db, acts[0]);
      HistoriesAlways(Transact(db, acts[0]), acts[1..]);
    }
  }

  /**
   From any reachable state on, a Request's events are only ever appended to, its phase never falls
   even when its job goes back to the queue, and a terminal state is permanent.
   */
  lemma {:induction false} RequestOnlyAdvances(db: Db, acts: seq<DbAction>, id: RequestId)
    requires Histories(db) && CanRunDb(db, acts) && id in db.requests
    ensures id in AfterDb(db, acts).requests
    ensures var r, r' := db.requests[id], AfterDb(db, acts).requests[id];
            && r.events <= r'.events
            && Rank(r.state) <= Rank(r'.state)
            && (r.state.Ended? ==> r'.state == r.state)
    decreases |acts|
  {
    hide Transact, HistoryOk, RowMove;
    if acts != [] {
      StepMovesRow(db, acts[0], id);
      StepKeepsHistories(db, acts[0]);
      MoveKeepsHistory(db.requests[id], Transact(db, acts[0]).requests[id]);
      RequestOnlyAdvances(Transact(db, acts[0]), acts[1..], id);
    }
  }

  // ---- Identity and idempotency ----

  /** What a Request is for life: key, hash, payload, age and identity; an open tree may be pinned once. */
  ghost predicate SameRequest(r: Request, r': Request) {
    && r'.idempotencyKey == r.idempotencyKey && r'.hash == r.hash && r'.payload == r.payload && r'.createdAt == r.createdAt
    && r'.identity.(tree := r.identity.tree) == r.identity
    && (r.identity.tree != "" ==> r'.identity.tree == r.identity.tree)
  }

  lemma ProjectionKeepsIdentity(r: Request, id: JobId, job: Job, rows: seq<Attestation>, now: Time)
    ensures SameRequest(r, Projected(r, id, job, rows, now))
  {
    hide Matching, Evidence;
  }

  lemma StepKeepsIdentity(db: Db, a: DbAction, id: RequestId)
    requires Possible(db, a) && id in db.requests
    ensures id in Transact(db, a).requests && SameRequest(db.requests[id], Transact(db, a).requests[id])
  {
    hide Projected, Next, CreateOutcomeOf, CreateOrGet, NotAfter, SameIdentity, Allowed;
    var r := db.requests[id];
    match a
    case QueueAct(qa) =>
      var q := Next(db.queue, qa);
      if r.job.Some? && r.job.value in q.jobs {
        ProjectionKeepsIdentity(r, r.job.value, q.jobs[r.job.value], db.attestations, qa.now);
      }
    case CreateAct(_, _, _, _, _, _, _) => CreateKeepsRows(db, a, id);
    case ReconcileAct(_, now) =>
      if Bound(db, id) { ProjectionKeepsIdentity(r, r.job.value, db.queue.jobs[r.job.value], db.attestations, now); }
    case RepairAct(now) =>
      if Bound(db, id) { ProjectionKeepsIdentity(r, r.job.value, db.queue.jobs[r.job.value], db.attestations, now); }
    case _ =>
  }

  ghost predicate KeysUnique(db: Db) {
    forall r, s :: r in db.requests && s in db.requests && r != s ==> db.requests[r].idempotencyKey != db.requests[s].idempotencyKey
  }

  lemma StepKeepsKeys(db: Db, a: DbAction)
    requires KeysUnique(db) && Possible(db, a)
    ensures KeysUnique(Transact(db, a))
  {
    hide Transact;
    var db' := Transact(db, a);
    forall id | id in db.requests
      ensures id in db'.requests && db'.requests[id].idempotencyKey == db.requests[id].idempotencyKey
    {
      StepKeepsIdentity(db, a, id);
    }
    forall id | id in db'.requests && id !in db.requests
      ensures a.CreateAct? && a.id == id && db'.requests[id].idempotencyKey == a.key
      ensures forall s :: s in db.requests ==> db.requests[s].idempotencyKey != a.key
    {
      NewRowsAreCreated(db, a, id);
      NewKeyIsFree(db, a);
    }
    hide Possible;
  }

  /** A row is created only under a key that no row has. */
  lemma NewKeyIsFree(db: Db, a: DbAction)
    requires Possible(db, a) && a.CreateAct? && a.id !in db.requests && a.id in Transact(db, a).requests
    ensures forall s :: s in db.requests ==> db.requests[s].idempotencyKey != a.key
  {
    forall s | s in db.requests ensures !HasKey(db, a.key, s) {
    }
  }

  /**
   One Request per idempotency key in every reachable state, and a Request keeps its repository, branch,
   commit, profile, configuration, key and payload for life; its tree is pinned at most once.
   */
  lemma {:induction false} IdentityIsForEver(db: Db, acts: seq<DbAction>, id: RequestId)
    requires KeysUnique(db) && CanRunDb(db, acts) && id in db.requests
    ensures KeysUnique(AfterDb(db, acts))
    ensures id in AfterDb(db, acts).requests && SameRequest(db.requests[id], AfterDb(db, acts).requests[id])
    decreases |acts|
  {
    hide Transact, KeysUnique;
    if acts != [] {
      StepKeepsKeys(db, acts[0]);
      StepKeepsIdentity(db, acts[0], id);
      IdentityIsForEver(Transact(db, acts[0]), acts[1..], id);
    }
  }
}
