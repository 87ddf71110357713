/** Theorems about whole runs of the job queue, whatever actions interleave. */
module QueueRuns {
  import opened LogStore
  import opened JobQueue
  import opened QueueSafety

  ghost predicate CanRun(q: Queue, acts: seq<Action>)
    decreases |acts|
  {
    acts == [] || (Enabled(q, acts[0]) && CanRun(Next(q, acts[0]), acts[1..]))
  }

  ghost function After(q: Queue, acts: seq<Action>): Queue
    requires CanRun(q, acts)
    decreases |acts|
  {
    if acts == [] then q else After(Next(q, acts[0]), acts[1..])
  }

  /** A clock that starts at t and never goes back. */
  ghost predicate Clock(t: Time, acts: seq<Action>)
    decreases |acts|
  {
    acts == [] || (t <= acts[0].now && Clock(acts[0].now, acts[1..]))
  }

  ghost predicate AllWell(acts: seq<Action>) {
    forall k :: 0 <= k < |acts| ==> WellReported(acts[k])
  }

  ghost predicate NoCleanup(acts: seq<Action>) {
    forall k :: 0 <= k < |acts| ==> !acts[k].DoCleanup?
  }

  // ---- Accounting over runs ----

  /** In every reachable state the counters are exact and every row is in shape. */
  lemma {:induction false} InvHoldsAlways(q: Queue, acts: seq<Action>)
    requires Inv(q) && CanRun(q, acts) && AllWell(acts)
    ensures Inv(After(q, acts))
    decreases |acts|
  {
    if acts != [] {
      assert WellReported(acts[0]);
      NextKeepsInv(q, acts[0]);
      InvHoldsAlways(Next(q, acts[0]), acts[1..]);
    }
  }

  // ---- Fencing over runs ----

  /** The attempt that held `token` on job i is over at time t: replaced, cleared or expired. */
  ghost predicate Over(q: Queue, i: JobId, token: string, t: Time) {
    && token in q.issued
    && (i in q.jobs && q.jobs[i].token == Some(token) && q.jobs[i].expires.Some? ==> q.jobs[i].expires.value <= t)
  }

  /** The call renews job i under this token. */
  predicate Renews(a: Action, i: JobId, token: string) { a.DoRenew? && a.id == i && a.token == token }

  /**
   Exactly when an attempt that was over at time t is not any more: a renewal that carries its token has read
   the clock before the expiry, however late it takes the lock, and not too long before t.
   */
  lemma OverEndsIff(q: Queue, a: Action, i: JobId, token: string, t: Time)
    requires Enabled(q, a) && Over(q, i, token, t)
    ensures !Over(Next(q, a), i, token, t)
       <==> Renews(a, i, token) && Renewable(q, i, token, a.worker, a.now) && a.now + LEASE_SECONDS > t
    ensures !Over(Next(q, a), i, token, t) ==> a.now < t
  {
    hide Upsert, NotAfter, Reusable, AddStep, Apply;
  }

  lemma {:induction false} OverForEver(q: Queue, acts: seq<Action>, i: JobId, token: string, t: Time)
    requires CanRun(q, acts) && Over(q, i, token, t)
    requires forall k :: 0 <= k < |acts| && Renews(acts[k], i, token) ==> t <= acts[k].now
    ensures Over(After(q, acts), i, token, t)
    decreases |acts|
  {
    hide Next, Over, NotAfter;
    if acts != [] {
      OverEndsIff(q, acts[0], i, token, t);
      OverForEver(Next(q, acts[0]), acts[1..], i, token, t);
    }
  }

  /**
   Once an attempt's token is replaced, cleared or expired at time t, no call from t on that carries it changes
   anything: no renewal, log, step, status, source, release or completion, for any worker id. Of all the calls
   in between only the renewals with this token must have read the clock at t or later.
   */
  lemma StaleTokenIsInert(q: Queue, acts: seq<Action>, i: JobId, token: string, t: Time, now: Time, w: string, cb: Callback)
    requires CanRun(q, acts) && Over(q, i, token, t) && t <= now
    requires forall k :: 0 <= k < |acts| && Renews(acts[k], i, token) ==> t <= acts[k].now
    ensures Call(After(q, acts), i, w, token, now, cb) == After(q, acts)
    ensures Renew(After(q, acts), i, token, w, now) == After(q, acts)
  {
    OverForEver(q, acts, i, token, t);
  }

  /** A fresh lease is not over, and its holder passes the fence until the expiry: the fence is not vacuous. */
  lemma FreshLeasePasses(q: Queue, a: Action, now: Time)
    requires a.DoLease? && Enabled(q, a) && a.worker != "" && now < a.now + LEASE_SECONDS
    ensures Fence(Next(q, a), a.id, a.worker, a.token, now)
    ensures !Over(Next(q, a), a.id, a.token, now)
  {
  }

  /** Every way an attempt ends makes its token over at once. */
  lemma EndedAttemptIsOver(q: Queue, a: Action, i: JobId)
    requires Inv(q) && i in q.jobs && Active(q.jobs[i].status) && WellReported(a)
    requires || (a.DoCall? && a.id == i && Fence(q, i, a.worker, a.token, a.now) && (a.cb.Release? || a.cb.Complete?))
             || (a.DoRecoverExpired? && i in Expired(q, a.now))
             || (a.DoRecoverWorker? && i in OwnedBy(q, a.worker))
    ensures Over(Next(q, a), i, q.jobs[i].token.value, a.now)
  {
    hide Upsert, Exact, TokensDistinct, Valid;
    assert JobOk(q, i);
  }

  /** The token is no longer the one on job i: it was replaced or cleared. */
  ghost predicate Gone(q: Queue, i: JobId, token: string) {
    token in q.issued && !(i in q.jobs && q.jobs[i].token == Some(token))
  }

  lemma NextKeepsGone(q: Queue, a: Action, i: JobId, token: string)
    requires Enabled(q, a) && Gone(q, i, token)
    ensures Gone(Next(q, a), i, token)
  {
    hide Upsert, NotAfter, Reusable, AddStep, Apply;
  }

  /**
   For a replaced or cleared token no clock is needed: whatever times the calls of the run and the late call
   itself have read, and in whatever order, a call that carries it changes nothing.
   */
  lemma {:induction false} GoneTokenIsInert(q: Queue, acts: seq<Action>, i: JobId, token: string, now: Time, w: string,
                                            cb: Callback)
    requires CanRun(q, acts) && Gone(q, i, token)
    ensures Call(After(q, acts), i, w, token, now, cb) == After(q, acts)
    ensures Renew(After(q, acts), i, token, w, now) == After(q, acts)
    decreases |acts|
  {
    if acts != [] {
      NextKeepsGone(q, acts[0], i, token);
      hide Next;
      GoneTokenIsInert(Next(q, acts[0]), acts[1..], i, token, now, w, cb);
    }
  }

  // ---- Settled rows ----

  /** Neither waiting nor held by a worker. */
  predicate Settled(st: Status) { !st.Queued? && !Active(st) }

  lemma NextKeepsSettled(q: Queue, a: Action, i: JobId)
    requires Enabled(q, a) && i in q.jobs && Settled(q.jobs[i].status)
    ensures i in Next(q, a).jobs ==> Next(q, a).jobs[i] == q.jobs[i]
    ensures !a.DoCleanup? ==> i in Next(q, a).jobs
  {
    hide Upsert, NotAfter, Reusable, AddStep, Apply;
  }

  /** A terminal job never changes again, in no column, until clean-up deletes it. */
  lemma {:induction false} TerminalIsForEver(q: Queue, acts: seq<Action>, i: JobId)
    requires CanRun(q, acts) && NoCleanup(acts) && i in q.jobs && Terminal(q.jobs[i].status)
    ensures i in After(q, acts).jobs && After(q, acts).jobs[i] == q.jobs[i]
    decreases |acts|
  {
    if acts != [] {
      assert !acts[0].DoCleanup?;
      NextKeepsSettled(q, acts[0], i);
      TerminalIsForEver(Next(q, acts[0]), acts[1..], i);
    }
  }

  // ---- Idempotent creation ----

  ghost predicate OneLive(q: Queue) {
    forall i, k, key {:trigger Reusable(q, key, i), Reusable(q, key, k)} :: Reusable(q, key, i) && Reusable(q, key, k) ==> i == k
  }

  /** No step makes an existing row reusable again. */
  lemma OnlyCreationMakesReusable(q: Queue, a: Action, key: JobKey, i: JobId)
    requires Enabled(q, a) && Reusable(Next(q, a), key, i)
    ensures Reusable(q, key, i) || (a.DoCreate? && i == a.id && i !in q.jobs && key == a.order.key)
  {
    hide Upsert, NotAfter, AddStep, Apply;
  }

  lemma CreationIsNew(q: Queue, a: Action)
    requires a.DoCreate? && !a.force && a.id !in q.jobs && a.id in Next(q, a).jobs
    ensures forall i :: !Reusable(q, a.order.key, i)
  {
    hide Upsert, Supersede;
  }

  lemma NextKeepsOneLive(q: Queue, a: Action)
    requires OneLive(q) && Enabled(q, a) && (a.DoCreate? ==> !a.force)
    ensures OneLive(Next(q, a))
  {
    hide Next, NotAfter;
    forall i, k, key | Reusable(Next(q, a), key, i) && Reusable(Next(q, a), key, k) ensures i == k {
      OnlyCreationMakesReusable(q, a, key, i);
      OnlyCreationMakesReusable(q, a, key, k);
      if a.DoCreate? && a.id !in q.jobs && a.id in Next(q, a).jobs { CreationIsNew(q, a); }
    }
  }

  /** Unless a caller forces a rerun, at most one queued, active or passed job exists per idempotency key. */
  lemma {:induction false} OneLiveJobPerKey(q: Queue, acts: seq<Action>)
    requires OneLive(q) && CanRun(q, acts) && forall k :: 0 <= k < |acts| && acts[k].DoCreate? ==> !acts[k].force
    ensures OneLive(After(q, acts))
    decreases |acts|
  {
    hide OneLive, Next;
    if acts != [] {
      assert acts[0].DoCreate? ==> !acts[0].force;
      NextKeepsOneLive(q, acts[0]);
      OneLiveJobPerKey(Next(q, acts[0]), acts[1..]);
    }
  }

  // ---- Attempts over runs ----

  /** Whether action a leases, loses, or voluntarily releases job i in state q. */
  predicate Leases(a: Action, i: JobId) { a.DoLease? && a.id == i }

  predicate Loses(q: Queue, a: Action, i: JobId) {
    (a.DoRecoverExpired? && i in Expired(q, a.now)) || (a.DoRecoverWorker? && i in OwnedBy(q, a.worker))
  }

  predicate Releases(q: Queue, a: Action, i: JobId) {
    a.DoCall? && a.id == i && a.cb.Release? && Fence(q, i, a.worker, a.token, a.now)
  }

  ghost function LeaseCount(acts: seq<Action>, i: JobId): nat {
    if acts == [] then 0 else One(Leases(acts[0], i)) + LeaseCount(acts[1..], i)
  }

  ghost function LossCount(q: Queue, acts: seq<Action>, i: JobId): nat
    requires CanRun(q, acts)
    decreases |acts|
  {
    if acts == [] then 0 else One(Loses(q, acts[0], i)) + LossCount(Next(q, acts[0]), acts[1..], i)
  }

  ghost function ReleaseCount(q: Queue, acts: seq<Action>, i: JobId): nat
    requires CanRun(q, acts)
    decreases |acts|
  {
    if acts == [] then 0 else One(Releases(q, acts[0], i)) + ReleaseCount(Next(q, acts[0]), acts[1..], i)
  }

  /** The row agrees with what happened to it: leases, losses and releases so far. */
  ghost predicate Tally(job: Job, leases: nat, losses: nat, releases: nat) {
    && job.attempts == leases && job.releases == releases && job.maxAttempts == DEFAULT_MAX_ATTEMPTS
    && (job.status.Queued? ==> leases == losses + releases)
    && (Active(job.status) ==> leases == losses + releases + 1)
    && losses + releases <= leases
    && (losses >= DEFAULT_MAX_ATTEMPTS ==> job.status.WorkerLost?)
  }

  lemma LossKeepsTally(job: Job, ts: Time, leases: nat, losses: nat, releases: nat)
    requires Tally(job, leases, losses, releases) && Active(job.status)
    ensures Tally(Recovered(job, ts), leases, losses + 1, releases)
  {
  }

  lemma CallKeepsTally(q: Queue, a: Action, leases: nat, losses: nat, releases: nat)
    requires a.DoCall? && a.id in q.jobs && WellReported(a) && Tally(q.jobs[a.id], leases, losses, releases)
    ensures a.id in Next(q, a).jobs
    ensures Tally(Next(q, a).jobs[a.id], leases, losses, releases + One(Releases(q, a, a.id)))
  {
    hide Upsert, AddStep, Apply;
  }

  lemma SettledKeepsTally(q: Queue, a: Action, i: JobId, leases: nat, losses: nat, releases: nat)
    requires Inv(q) && Enabled(q, a) && !a.DoCleanup? && i in q.jobs && Settled(q.jobs[i].status)
    requires Tally(q.jobs[i], leases, losses, releases)
    ensures i in Next(q, a).jobs
    ensures Tally(Next(q, a).jobs[i], leases + One(Leases(a, i)), losses + One(Loses(q, a, i)), releases + One(Releases(q, a, i)))
  {
    hide Next, NotAfter, Exact, TokensDistinct, Valid, Tally;
    assert JobOk(q, i);
    NextKeepsSettled(q, a, i);
  }

  lemma RecoveryKeepsTally(q: Queue, a: Action, i: JobId, leases: nat, losses: nat, releases: nat)
    requires (a.DoRecoverExpired? || a.DoRecoverWorker?) && i in q.jobs && Tally(q.jobs[i], leases, losses, releases)
    ensures i in Next(q, a).jobs
    ensures Tally(Next(q, a).jobs[i], leases + One(Leases(a, i)), losses + One(Loses(q, a, i)), releases + One(Releases(q, a, i)))
  {
    hide Tally, InRepo, Requeued, Row, Recovered, Clamped;
    if Active(q.jobs[i].status) { LossKeepsTally(q.jobs[i], a.now, leases, losses, releases); }
  }

  lemma OtherKeepsTally(q: Queue, a: Action, i: JobId, leases: nat, losses: nat, releases: nat)
    requires Enabled(q, a) && i in q.jobs && !Settled(q.jobs[i].status) && !(a.DoCall? && a.id == i)
    requires !a.DoRecoverExpired? && !a.DoRecoverWorker? && !a.DoCleanup? && Tally(q.jobs[i], leases, losses, releases)
    ensures i in Next(q, a).jobs
    ensures Tally(Next(q, a).jobs[i], leases + One(Leases(a, i)), losses + One(Loses(q, a, i)), releases + One(Releases(q, a, i)))
  {
    hide Upsert, NotAfter, Reusable, AddStep, Apply, NewJob;
  }

  lemma NextKeepsTally(q: Queue, a: Action, i: JobId, leases: nat, losses: nat, releases: nat)
    requires Inv(q) && Enabled(q, a) && WellReported(a) && !a.DoCleanup? && i in q.jobs
    requires Tally(q.jobs[i], leases, losses, releases)
    ensures i in Next(q, a).jobs
    ensures Tally(Next(q, a).jobs[i], leases + One(Leases(a, i)), losses + One(Loses(q, a, i)), releases + One(Releases(q, a, i)))
  {
    hide Next, NotAfter, Exact, TokensDistinct, Valid, Tally, Fence;
    if Settled(q.jobs[i].status) {
      SettledKeepsTally(q, a, i, leases, losses, releases);
    } else if a.DoRecoverExpired? || a.DoRecoverWorker? {
      RecoveryKeepsTally(q, a, i, leases, losses, releases);
    } else if a.DoCall? && a.id == i {
      CallKeepsTally(q, a, leases, losses, releases);
    } else {
      OtherKeepsTally(q, a, i, leases, losses, releases);
    }
  }

  lemma {:induction false} TallyAlways(q: Queue, acts: seq<Action>, i: JobId, leases: nat, losses: nat, releases: nat)
    requires Inv(q) && CanRun(q, acts) && AllWell(acts) && NoCleanup(acts) && i in q.jobs
    requires Tally(q.jobs[i], leases, losses, releases)
    ensures i in After(q, acts).jobs
    ensures Tally(After(q, acts).jobs[i], leases + LeaseCount(acts, i), losses + LossCount(q, acts, i), releases + ReleaseCount(q, acts, i))
    decreases |acts|
  {
    hide Inv, Tally;
    if acts != [] {
      var a := acts[0];
      assert WellReported(a) && !a.DoCleanup?;
      NextKeepsInv(q, a);
      NextKeepsTally(q, a, i, leases, losses, releases);
      TallyAlways(Next(q, a), acts[1..], i, leases + One(Leases(a, i)), losses + One(Loses(q, a, i)), releases + One(Releases(q, a, i)));
    }
  }

  /**
   Over any run a job created in it is leased once for every loss and voluntary release, and once more while
   active. So it is leased at most max_attempts times plus its releases, and a job whose workers were lost
   max_attempts times has ended in worker_lost.
   */
  lemma LeasesAreBounded(q: Queue, create: Action, acts: seq<Action>)
    requires Inv(q) && create.DoCreate? && create.id !in q.jobs && create.id in Next(q, create).jobs
    requires CanRun(Next(q, create), acts) && AllWell(acts) && NoCleanup(acts)
    ensures var start, i := Next(q, create), create.id;
            var leases, losses, releases := LeaseCount(acts, i), LossCount(start, acts, i), ReleaseCount(start, acts, i);
            && i in After(start, acts).jobs
            && var job := After(start, acts).jobs[i];
               && job.attempts == leases
               && (job.status.Queued? ==> leases == losses + releases)
               && (Active(job.status) ==> leases == losses + releases + 1)
               && leases <= DEFAULT_MAX_ATTEMPTS + releases
               && (losses >= DEFAULT_MAX_ATTEMPTS ==> job.status.WorkerLost?)
  {
    hide Inv, JobOk, Next, After, CanRun, AllWell, LeaseCount, LossCount, ReleaseCount;
    var start := Next(q, create);
    NextKeepsInv(q, create);
    CreatedIsNew(q, create);
    TallyAlways(start, acts, create.id, 0, 0, 0);
    InvHoldsAlways(start, acts);
    RowInShape(After(start, acts), create.id);
  }

  lemma CreatedIsNew(q: Queue, create: Action)
    requires create.DoCreate? && create.id !in q.jobs && create.id in Next(q, create).jobs
    ensures Next(q, create).jobs[create.id] == NewJob(create.order, create.now)
  {
    hide Upsert, Reusable;
  }

  lemma RowInShape(q: Queue, i: JobId)
    requires Inv(q) && i in q.jobs
    ensures AttemptBound(q.jobs[i])
  {
    assert JobOk(q, i);
  }

  // ---- Runs that show the bounds are real ----

  const ORDER := Order(CommitKey("r", "c", "p"), "r", "b", "c", "p", 0)
  const CREATE := DoCreate("j", ORDER, false, false, 0.0)

  function Token(k: nat): (t: string)
    ensures |t| == k + 1
  {
    if k == 0 then "t" else Token(k - 1) + "t"
  }

  function LeaseAt(k: nat): Action { DoLease("j", "w", ["p"], 1, Token(k), 0.0) }

  function ReleaseAt(k: nat): Action { DoCall("j", "w", Token(k), 0.0, Release) }

  /** Only job j exists, it waits, and no token is longer than k. */
  ghost predicate Waiting(q: Queue, k: nat) {
    && q.jobs.Keys == {"j"} && q.jobs["j"].status.Queued? && q.jobs["j"].order == ORDER
    && forall t :: t in q.issued ==> |t| <= k
  }

  /** Job j is leased under token k. */
  ghost predicate Held(q: Queue, k: nat) {
    && q.jobs.Keys == {"j"} && q.jobs["j"].status.Leased? && q.jobs["j"].order == ORDER
    && q.jobs["j"].worker == Some("w") && q.jobs["j"].token == Some(Token(k)) && q.jobs["j"].expires == Some(LEASE_SECONDS)
    && forall t :: t in q.issued ==> |t| <= k + 1
  }

  lemma LeaseHolds(q: Queue, k: nat)
    requires Waiting(q, k)
    ensures Enabled(q, LeaseAt(k)) && Held(Next(q, LeaseAt(k)), k)
  {
    hide Upsert, NotAfter;
    assert OwnedBy(q, "w") == {};
    ItselfFirst(q, "j");
    assert IsPick(q, ["p"], "j");
  }

  lemma ItselfFirst(q: Queue, i: JobId)
    requires i in q.jobs
    ensures NotAfter(q, i, i)
  {
  }

  lemma ReleaseReturns(q: Queue, k: nat)
    requires Held(q, k)
    ensures Fence(q, "j", "w", Token(k), 0.0) && Waiting(Next(q, ReleaseAt(k)), k + 1)
  {
    hide Upsert, ORDER;
  }

  lemma OneRound(q: Queue, k: nat)
    requires Waiting(q, k)
    ensures Enabled(q, LeaseAt(k)) && Enabled(Next(q, LeaseAt(k)), ReleaseAt(k))
    ensures Waiting(Next(Next(q, LeaseAt(k)), ReleaseAt(k)), k + 1)
    ensures Fence(Next(q, LeaseAt(k)), "j", "w", Token(k), 0.0)
  {
    hide Next, Waiting, Held, Fence;
    LeaseHolds(q, k);
    ReleaseReturns(Next(q, LeaseAt(k)), k);
  }

  lemma {:induction false} Rounds(q: Queue, k: nat, n: nat) returns (acts: seq<Action>)
    requires Waiting(q, k)
    ensures CanRun(q, acts) && AllWell(acts) && NoCleanup(acts) && Clock(0.0, acts) && LeaseCount(acts, "j") == n
    decreases n
  {
    hide Next, NotAfter;
    acts := [];
    if n > 0 {
      OneRound(q, k);
      var a, b := LeaseAt(k), ReleaseAt(k);
      var rest := Rounds(Next(Next(q, a), b), k + 1, n - 1);
      acts := [a, b] + rest;
      assert acts[1..] == [b] + rest && ([b] + rest)[1..] == rest;
    }
  }

  /** Voluntary releases are not counted: from the empty queue a job can be leased any number of times. */
  lemma LeasesAreUnbounded(n: nat) returns (acts: seq<Action>)
    ensures CanRun(START, [CREATE] + acts) && AllWell([CREATE] + acts) && NoCleanup([CREATE] + acts) && Clock(0.0, [CREATE] + acts)
    ensures LeaseCount([CREATE] + acts, "j") == n
  {
    var q := Next(START, CREATE);
    CreatedWaits();
    acts := Rounds(q, 0, n);
    assert ([CREATE] + acts)[1..] == acts;
  }

  /** Job j completed by its worker with a word of the wrong class. */
  function BadCompletion(): Action { DoCall("j", "w", Token(0), 0.0, Complete(0, Running, "")) }

  /** One bad word is enough: create, lease, and complete as running leaves the counters wrong. */
  lemma BadWordBreaksCounters()
    ensures CanRun(START, [CREATE, LeaseAt(0), BadCompletion()])
    ensures !Exact(After(START, [CREATE, LeaseAt(0), BadCompletion()]))
  {
    hide Exact, Inv, Fence, LeaseAt, BadCompletion, Waiting;
    var q, a, b := Next(START, CREATE), LeaseAt(0), BadCompletion();
    CreatedWaits();
    StartIsOk();
    BadCallIsFenced(q);
    hide Next, Enabled;
    NextKeepsInv(START, CREATE);
    BadStep(q, a, b);
    ThreeSteps(START, CREATE, a, b);
  }

  lemma BadCallIsFenced(q: Queue)
    requires Waiting(q, 0)
    ensures var a, b := LeaseAt(0), BadCompletion();
            && a.DoLease? && a.id in q.jobs && Enabled(q, a) && WellReported(a)
            && b.DoCall? && Enabled(Next(q, a), b) && !WellReported(b)
            && Fence(Next(q, a), b.id, b.worker, b.token, b.now)
  {
    OneRound(q, 0);
  }

  lemma BadStep(q: Queue, a: Action, b: Action)
    requires Inv(q) && Enabled(q, a) && WellReported(a)
    requires b.DoCall? && !WellReported(b) && Fence(Next(q, a), b.id, b.worker, b.token, b.now)
    ensures !Exact(Next(Next(q, a), b))
  {
    hide Next, Fence, Exact, NotAfter;
    NextKeepsInv(q, a);
    CallIsExactIff(Next(q, a), b);
  }

  lemma CreatedWaits()
    ensures Waiting(Next(START, CREATE), 0)
  {
  }

  lemma ThreeSteps(q: Queue, a: Action, b: Action, c: Action)
    requires Enabled(q, a) && Enabled(Next(q, a), b) && Enabled(Next(Next(q, a), b), c)
    ensures CanRun(q, [a, b, c]) && After(q, [a, b, c]) == Next(Next(Next(q, a), b), c)
  {
    hide Next, NotAfter;
    var none: seq<Action> := [];
    assert [a, b, c][1..] == [b, c] && [b, c][1..] == [c] && [c][1..] == none;
    var r := Next(Next(q, a), b);
    assert CanRun(r, [c]) && After(r, [c]) == Next(r, c);
  }

  // ---- Concurrency limit ----

  ghost predicate LeasesWithin(acts: seq<Action>, limit: string -> nat) {
    forall k :: 0 <= k < |acts| && acts[k].DoLease? ==> acts[k].maxConcurrent <= limit(acts[k].worker)
  }

  /** Only a lease to worker w can give it a job. */
  lemma OnlyLeasesGiveJobs(q: Queue, a: Action, w: string, i: JobId)
    requires Enabled(q, a) && i in OwnedBy(Next(q, a), w)
    ensures i in OwnedBy(q, w) || (a.DoLease? && a.worker == w && i == a.id)
  {
    hide Upsert, NotAfter, Reusable, AddStep, Apply, InRepo, Requeued;
  }

  lemma NextKeepsLimit(q: Queue, a: Action, w: string, limit: nat)
    requires Enabled(q, a) && |OwnedBy(q, w)| <= limit
    requires a.DoLease? && a.worker == w ==> a.maxConcurrent <= limit
    ensures |OwnedBy(Next(q, a), w)| <= limit
  {
    hide Next, OwnedBy, NotAfter;
    var before, after := OwnedBy(q, w), OwnedBy(Next(q, a), w);
    forall i | i in after ensures i in before || (a.DoLease? && a.worker == w && i == a.id) {
      OnlyLeasesGiveJobs(q, a, w, i);
    }
    if a.DoLease? && a.worker == w {
      Subset(after, before + {a.id});
    } else {
      Subset(after, before);
    }
  }

  /** A worker that always leases with its own fixed limit never owns more active jobs than that. */
  lemma {:induction false} WorkerLimitHolds(q: Queue, acts: seq<Action>, limit: string -> nat, w: string)
    requires CanRun(q, acts) && LeasesWithin(acts, limit) && |OwnedBy(q, w)| <= limit(w)
    ensures |OwnedBy(After(q, acts), w)| <= limit(w)
    decreases |acts|
  {
    if acts != [] {
      assert acts[0].DoLease? ==> acts[0].maxConcurrent <= limit(acts[0].worker);
      NextKeepsLimit(q, acts[0], w, limit(w));
      assert LeasesWithin(acts[1..], limit);
      WorkerLimitHolds(Next(q, acts[0]), acts[1..], limit, w);
    }
  }
}
