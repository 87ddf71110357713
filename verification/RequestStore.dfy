/**
 Durable Requests beside the job queue: creation, compare-and-swap transitions, atomic dispatch of a
 Worker Job, and the reconciler that projects Worker truth into the Request.
 */
module RequestStore {
  import opened LogStore
  import opened JobQueue

  type RequestId = string

  /** ci_requests.status of the terminal phase. */
  datatype Outcome =
    | DidPass | DidFail | DidTimeOut | DidCancel | DidSupersede | DidLoseWorker | DidBreak | DidFailPreflight

  /** The valid (phase, status) pairs; the phases before the last have a status of the same name. */
  datatype State = Accepted | Preflighting | Enqueued | Executing | Ended(outcome: Outcome)

  datatype EventKind = WasAccepted | Transitioned | WorkerQueued | TerminalReconciled | RunningReconciled | AttestationLinked

  /** One row of ci_request_events. */
  datatype Event = Event(revision: nat, kind: EventKind, source: Option<State>, target: State)

  /** The part of the request payload that dispatch reads. */
  datatype Payload = Payload(priority: int, supersede: bool)

  /** The identity columns of a Request; an empty tree stands for NULL. */
  datatype Identity = Identity(repository: string, branch: string, commit: string, tree: string, profile: string, digest: string)

  /** One row of ci_requests with its event rows. */
  datatype Request = Request(
    identity: Identity, idempotencyKey: string, hash: string, payload: Option<Payload>, createdAt: Time,
    state: State, revision: nat, job: Option<JobId>, preflightError: string, attestation: Option<string>,
    events: seq<Event>)

  /** One row of ci_tree_attestations, in creation order in the table. */
  datatype Attestation = Attestation(
    id: string, job: JobId, repository: string, commit: string, tree: string, profile: string, active: bool, expires: Time)

  datatype Db = Db(queue: Queue, requests: map<RequestId, Request>, attestations: seq<Attestation>)

  const EMPTY_DB := Db(START, map[], [])

  predicate IsSha(s: string) {
    |s| == 40 && forall k :: 0 <= k < |s| ==> '0' <= s[k] <= '9' || 'a' <= s[k] <= 'f'
  }

  predicate IsHash(s: string) {
    |s| == 64 && forall k :: 0 <= k < |s| ==> '0' <= s[k] <= '9' || 'a' <= s[k] <= 'f'
  }

  // ---- The transition table ----

  predicate Allowed(from: State, to: State) {
    match from
    case Accepted => to.Preflighting? || (to.Ended? && (to.outcome.DidCancel? || to.outcome.DidSupersede? || to.outcome.DidBreak?))
    case Preflighting =>
      to.Enqueued? || (to.Ended? && (to.outcome.DidFailPreflight? || to.outcome.DidCancel? || to.outcome.DidSupersede? || to.outcome.DidBreak?))
    case Enqueued =>
      to.Executing? || (to.Ended? && (to.outcome.DidCancel? || to.outcome.DidSupersede? || to.outcome.DidLoseWorker? || to.outcome.DidBreak?))
    case Executing => to.Ended? && !to.outcome.DidFailPreflight?
    case Ended(_) => false
  }

  function Rank(s: State): nat {
    match s
    case Accepted => 0
    case Preflighting => 1
    case Enqueued => 2
    case Executing => 3
    case Ended(_) => 4
  }

  // ---- Row updates ----

  /** Write the next revision of a row together with its event. */
  function Advance(r: Request, kind: EventKind, to: State): Request {
    r.(state := to, revision := r.revision + 1, events := r.events + [Event(r.revision + 1, kind, Some(r.state), to)])
  }

  /** _assert_worker_job_identity. */
  predicate SameIdentity(r: Request, job: Job) {
    && r.identity.repository == job.order.repository && r.identity.branch == job.order.branch
    && r.identity.commit == job.order.commit && r.identity.profile == job.order.profile
  }

  /** UNIQUE(worker_job_id): no other Request holds the job. */
  predicate Unclaimed(db: Db, id: RequestId, job: JobId) {
    forall r :: r in db.requests && r != id ==> db.requests[r].job != Some(job)
  }

  // ---- create_or_get_ci_request ----

  datatype CreateOutcome =
    | Created | Deduplicated(existing: RequestId) | InvalidIdentity | IdempotencyConflict | IdentityMismatch | IdTaken

  predicate ValidIdentity(n: Identity, key: string, hash: string) {
    && n.repository != "" && '/' in n.repository && IsSha(n.commit) && (n.tree == "" || IsSha(n.tree))
    && n.profile != "" && n.digest != "" && key != "" && IsHash(hash)
  }

  /** A replay may leave the tree open; otherwise the identities must agree. */
  predicate Replays(n: Identity, prior: Identity) {
    n.(tree := if n.tree == "" then prior.tree else n.tree) == prior
  }

  predicate HasKey(db: Db, key: string, r: RequestId) { r in db.requests && db.requests[r].idempotencyKey == key }

  /** `found` is the row the key lookup returns, when there is one. */
  function CreateOutcomeOf(db: Db, id: RequestId, n: Identity, key: string, hash: string, found: RequestId): CreateOutcome {
    if !ValidIdentity(n, key, hash) then InvalidIdentity
    else if HasKey(db, key, found) then
      if db.requests[found].hash != hash then IdempotencyConflict
      else if !Replays(n, db.requests[found].identity) then IdentityMismatch
      else Deduplicated(found)
    else if id in db.requests then IdTaken
    else Created
  }

  function NewRequest(n: Identity, key: string, hash: string, payload: Option<Payload>, ts: Time): Request {
    Request(n, key, hash, payload, ts, Accepted, 0, None, "", None, [Event(0, WasAccepted, None, Accepted)])
  }

  function CreateRequest(db: Db, id: RequestId, n: Identity, key: string, hash: string, payload: Option<Payload>,
                         found: RequestId, ts: Time): Db {
    if CreateOutcomeOf(db, id, n, key, hash, found).Created?
    then db.(requests := db.requests[id := NewRequest(n, key, hash, payload, ts)]) else db
  }

  // ---- transition_ci_request ----

  datatype Metadata = Metadata(preflightCode: string, reason: string, failurePack: string, attestation: string)

  predicate MetadataFits(to: State, m: Metadata) {
    && (m.preflightCode != "" <==> to == Ended(DidFailPreflight))
    && (m.reason != "" ==> to.Ended?) && (m.failurePack != "" ==> to.Ended?)
    && (m.attestation != "" ==> to == Ended(DidPass))
  }

  datatype TransitionOutcome = Moved | NotFound | RevisionConflict | IllegalTransition | WrongIdentity | JobClaimed

  function TransitionOutcomeOf(db: Db, id: RequestId, expected: int, to: State, job: Option<JobId>,
                               m: Metadata): TransitionOutcome {
    if id !in db.requests then NotFound
    else
      var r := db.requests[id];
      var held := if job.Some? then job else r.job;
      if r.revision != expected then RevisionConflict
      else if !Allowed(r.state, to) then IllegalTransition
      else if (to.Enqueued? || to.Executing?) && held.None? then IllegalTransition
      else if held.Some? && (held.value !in db.queue.jobs || !SameIdentity(r, db.queue.jobs[held.value])) then WrongIdentity
      else if r.job.Some? && r.job != held then WrongIdentity
      else if !MetadataFits(to, m) then IllegalTransition
      else if held.Some? && !Unclaimed(db, id, held.value) then JobClaimed
      else Moved
  }

  function TransitionTo(db: Db, id: RequestId, expected: int, to: State, job: Option<JobId>, m: Metadata): Db {
    if !TransitionOutcomeOf(db, id, expected, to, job, m).Moved? then db
    else
      var r := db.requests[id];
      var next := Advance(r, Transitioned, to).(
        job := if job.Some? then job else r.job,
        preflightError := if m.preflightCode != "" then m.preflightCode else r.preflightError,
        attestation := if m.attestation != "" then Some(m.attestation) else r.attestation);
      db.(requests := db.requests[id := next])
  }

  // ---- dispatch_ci_request ----

  datatype DispatchOutcome =
    | Dispatched(job: JobId) | AlreadyDispatched | DispatchNotFound | NotPreparing | StaleRevision
    | TreeMismatch | IncompletePayload | InvalidTree | JobRefused

  function OrderOf(id: RequestId, r: Request): Order {
    Order(RequestKey(id), r.identity.repository, r.identity.branch, r.identity.commit, r.identity.profile,
          if r.payload.Some? then r.payload.value.priority else 0)
  }

  predicate HasReusable(q: Queue, key: JobKey) { exists i :: i in q.jobs && Reusable(q, key, i) }

  /** The job the creation returns: the reused row `reused`, else the new one. */
  function JobFor(db: Db, id: RequestId, newJob: JobId, reused: JobId): JobId {
    if HasReusable(db.queue, RequestKey(id)) then reused else newJob
  }

  /** The refusals that do not depend on a job. */
  function RefusedBefore(db: Db, id: RequestId, expected: int, tree: string): Option<DispatchOutcome> {
    if !IsSha(tree) then Some(InvalidTree)
    else if id !in db.requests then Some(DispatchNotFound)
    else
      var r := db.requests[id];
      if r.state.Enqueued? || r.state.Executing? || r.state.Ended? then Some(AlreadyDispatched)
      else if !r.state.Preflighting? then Some(NotPreparing)
      else if r.revision != expected then Some(StaleRevision)
      else if r.identity.tree != "" && r.identity.tree != tree then Some(TreeMismatch)
      else if r.payload.None? then Some(IncompletePayload)
      else None
  }

  function DispatchOutcomeOf(db: Db, id: RequestId, expected: int, tree: string, newJob: JobId,
                             reused: JobId): DispatchOutcome {
    var refused := RefusedBefore(db, id, expected, tree);
    if refused.Some? then refused.value
    else
      var r := db.requests[id];
      var job := JobFor(db, id, newJob, reused);
      if !HasReusable(db.queue, RequestKey(id)) && newJob in db.queue.jobs then JobRefused
      else if HasReusable(db.queue, RequestKey(id)) && (reused !in db.queue.jobs || !SameIdentity(r, db.queue.jobs[reused])) then JobRefused
      else if !Unclaimed(db, id, job) then JobRefused
      else Dispatched(job)
  }

  /** A dispatch that is not refused finds a preparing row of that revision with its payload. */
  lemma RefusedDecides(db: Db, id: RequestId, expected: int, tree: string)
    ensures var refused := RefusedBefore(db, id, expected, tree);
            && (refused.Some? ==> !refused.value.Dispatched?)
            && (refused.None? ==> IsSha(tree) && id in db.requests && db.requests[id].state.Preflighting?
                                  && db.requests[id].revision == expected && db.requests[id].payload.Some?
                                  && (db.requests[id].identity.tree != "" ==> db.requests[id].identity.tree == tree))
  {
  }

  /** Create or reuse the Worker Job, bind it and advance to queued, all in one transaction. */
  function Dispatch(db: Db, id: RequestId, expected: int, tree: string, newJob: JobId, reused: JobId, ts: Time): Db {
    var outcome := DispatchOutcomeOf(db, id, expected, tree, newJob, reused);
    if !outcome.Dispatched? then db
    else
      var r := db.requests[id];
      db.(queue := CreateOrGet(db.queue, newJob, OrderOf(id, r), false, r.payload.value.supersede, ts),
          requests := db.requests[id := Advance(r, WorkerQueued, Enqueued).(
                                          identity := r.identity.(tree := tree), job := Some(outcome.job))])
  }

  // ---- reconcile_worker_request_in_db ----

  function OutcomeOfStatus(st: Status): Option<Outcome> {
    match st
    case Passed => Some(DidPass)
    case Failed => Some(DidFail)
    case TimedOut => Some(DidTimeOut)
    case Cancelled => Some(DidCancel)
    case Superseded => Some(DidSupersede)
    case WorkerLost => Some(DidLoseWorker)
    case InternalError => Some(DidBreak)
    case _ => None
  }

  /** The job row proves what the Request needs: same identity, no other tree, and for a pass all of it. */
  predicate Evidence(r: Request, job: Job) {
    && SameIdentity(r, job) && IsSha(r.identity.tree)
    && (job.tree == "" || job.tree == r.identity.tree)
    && (job.status.Passed? ==> job.tree == r.identity.tree && job.exitCode == Some(0))
  }

  function TargetOf(job: Job): Option<State> {
    var outcome := OutcomeOfStatus(job.status);
    if outcome.Some? then Some(Ended(outcome.value)) else if job.status.Running? then Some(Executing) else None
  }

  predicate Attests(a: Attestation, r: Request, id: JobId, now: Time) {
    && a.job == id && a.repository == r.identity.repository && a.commit == r.identity.commit
    && a.tree == r.identity.tree && a.profile == r.identity.profile && a.active && a.expires > now
  }

  /** The newest matching attestation of a passed job. */
  function Matching(rows: seq<Attestation>, r: Request, id: JobId, now: Time): Option<string> {
    if rows == [] then None
    else if Attests(rows[|rows| - 1], r, id, now) then Some(rows[|rows| - 1].id)
    else Matching(rows[..|rows| - 1], r, id, now)
  }

  /** The Request row after its job's truth has been replayed into it. */
  function Projected(r: Request, id: JobId, job: Job, rows: seq<Attestation>, now: Time): Request {
    var target := TargetOf(job);
    if !Evidence(r, job) || target.None? then r
    else if r.state.Accepted? || r.state.Preflighting? then r
    else if r.state.Ended? && target.value != r.state then r
    else if r.state.Executing? && target.value.Executing? then r
    else
      var found := if job.status.Passed? then Matching(rows, r, id, now) else None;
      var linked := if found.Some? && found.value != "" then found else None;
      if target.value == r.state && (linked.None? || linked == r.attestation) then r
      else
        var kind := if target.value == r.state then AttestationLinked
                    else if target.value.Ended? then TerminalReconciled else RunningReconciled;
        Advance(r, kind, target.value).(attestation := if linked.Some? then linked else r.attestation)
  }

  predicate Bound(db: Db, r: RequestId) {
    r in db.requests && db.requests[r].job.Some? && db.requests[r].job.value in db.queue.jobs
  }

  function ProjectedRow(db: Db, r: RequestId, now: Time): Request
    requires r in db.requests
  {
    if Bound(db, r)
    then Projected(db.requests[r], db.requests[r].job.value, db.queue.jobs[db.requests[r].job.value], db.attestations, now)
    else db.requests[r]
  }

  /** Reconcile the Requests bound to a set of jobs; UNIQUE(worker_job_id) makes that one each. */
  function Reconcile(db: Db, jobs: set<JobId>, now: Time): Db {
    db.(requests := map r | r in db.requests ::
                      if db.requests[r].job.Some? && db.requests[r].job.value in jobs then ProjectedRow(db, r, now) else db.requests[r])
  }

  /** The rows startup repair looks at. */
  predicate NeedsRepair(r: Request) {
    r.job.Some? && (!r.state.Ended? || (r.state == Ended(DidPass) && r.attestation.None?))
  }

  function Repair(db: Db, now: Time): Db {
    db.(requests := map r | r in db.requests :: if NeedsRepair(db.requests[r]) then ProjectedRow(db, r, now) else db.requests[r])
  }

  // ---- Queue transactions that reconcile before they commit ----

  /** The jobs whose Requests a queue action reconciles in the same transaction. */
  function Reconciles(q: Queue, a: Action): set<JobId> {
    match a
    case DoCall(i, w, token, now, cb) =>
      if Fence(q, i, w, token, now)
         && (cb.Complete? || (cb.SetStatus? && cb.status.Running? && (q.jobs[i].status.Downloading? || q.jobs[i].status.Preparing?)))
      then {i} else {}
    case DoCancelQueued(i, now) => if i in q.jobs && q.jobs[i].status.Queued? then {i} else {}
    case DoRecoverExpired(now) => Expired(q, now)
    case _ => {}
  }

  /** ON DELETE SET NULL for the jobs that clean-up removed. */
  function Unbind(requests: map<RequestId, Request>, q: Queue): map<RequestId, Request> {
    map r | r in requests ::
      if requests[r].job.Some? && requests[r].job.value !in q.jobs then requests[r].(job := None) else requests[r]
  }

  function QueueStep(db: Db, a: Action): Db
    requires a.DoLease? ==> a.id in db.queue.jobs
  {
    var q := Next(db.queue, a);
    var moved := db.(queue := q, requests := if a.DoCleanup? then Unbind(db.requests, q) else db.requests);
    Reconcile(moved, Reconciles(db.queue, a), a.now)
  }

  // ---- The transition system ----

  datatype DbAction =
    | QueueAct(a: Action)
    | CreateAct(id: RequestId, identity: Identity, key: string, hash: string, payload: Option<Payload>, found: RequestId, now: Time)
    | TransitionAct(id: RequestId, expected: int, to: State, job: Option<JobId>, metadata: Metadata, now: Time)
    | DispatchAct(id: RequestId, expected: int, tree: string, newJob: JobId, reused: JobId, now: Time)
    | ReconcileAct(worker: JobId, now: Time)
    | RepairAct(now: Time)
    | AttestAct(rows: seq<Attestation>, now: Time)

  /** What the tables guarantee about their own lookups; calls with any arguments are possible. */
  ghost predicate Possible(db: Db, a: DbAction) {
    match a
    case QueueAct(qa) => Enabled(db.queue, qa) && (qa.DoCreate? ==> qa.order.key.CommitKey?)
    case CreateAct(_, _, key, _, _, found, _) =>
      (exists r :: HasKey(db, key, r)) ==> HasKey(db, key, found)
    case DispatchAct(id, _, _, _, reused, _) =>
      HasReusable(db.queue, RequestKey(id)) ==> NewestReusable(db.queue, RequestKey(id), reused)
    case _ => true
  }

  function Transact(db: Db, a: DbAction): Db
    requires a.QueueAct? && a.a.DoLease? ==> a.a.id in db.queue.jobs
  {
    match a
    case QueueAct(qa) => QueueStep(db, qa)
    case CreateAct(id, n, key, hash, payload, found, now) => CreateRequest(db, id, n, key, hash, payload, found, now)
    case TransitionAct(id, expected, to, job, m, now) => TransitionTo(db, id, expected, to, job, m)
    case DispatchAct(id, expected, tree, newJob, reused, now) => Dispatch(db, id, expected, tree, newJob, reused, now)
    case ReconcileAct(worker, now) => Reconcile(db, {worker}, now)
    case RepairAct(now) => Repair(db, now)
    case AttestAct(rows, now) => db.(attestations := rows)
  }
}
