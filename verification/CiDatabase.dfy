/**
 The tables as one object, updated in place. Each public method is one transaction, statement by
 statement, and is proved to be the step of the transition system that the theorems speak of.
 */
module CiDatabase {
  import opened LogStore
  import opened JobQueue
  import opened RequestStore
  import opened BulkWrites
  import opened PendingRequests
  import opened QueueRows
  import opened RequestRows

  class Database {
    var jobs: map<JobId, Job>
    var repos: map<string, RepoRow>
    var requests: map<RequestId, Request>
    var attestations: seq<Attestation>
    var nextStep: nat
    ghost var issued: set<string>

    ghost function View(): Db
      reads this
    {
      Db(Queue(jobs, repos, issued, nextStep), requests, attestations)
    }

    ghost predicate Valid()
      reads this
    {
      UniqueBindings(requests)
    }

    constructor ()
      ensures Valid() && View() == EMPTY_DB
    {
      jobs, repos, requests, attestations, nextStep, issued := map[], map[], map[], [], 0, {};
    }

    // ---- Shared statements ----

    method UpsertRepoQueueState(repository: string, queued: int, running: int, dispatched: Option<Time>)
      modifies this`repos
      ensures repos == Upsert(old(repos), repository, queued, running, dispatched)
      ensures var was := if repository in old(repos) then old(repos)[repository] else RepoRow(0.0, 0, 0);
              && repos.Keys == old(repos).Keys + {repository}
              && repos[repository].queued == Max(0, was.queued + queued) && repos[repository].running == Max(0, was.running + running)
              && repos[repository].lastDispatched == (if dispatched.Some? then dispatched.value else was.lastDispatched)
              && forall r :: r in old(repos) && r != repository ==> repos[r] == old(repos)[r]
    {
      if repository in repos {
        var row := repos[repository];
        if queued != 0 { row := row.(queued := Max(0, row.queued + queued)); }
        if running != 0 { row := row.(running := Max(0, row.running + running)); }
        if dispatched.Some? { row := row.(lastDispatched := dispatched.value); }
        repos := repos[repository := row];
      } else {
        var last := if dispatched.Some? then dispatched.value else 0.0;
        repos := repos[repository := RepoRow(last, Max(0, running), Max(0, queued))];
      }
    }

    method BeginJobWrite(id: JobId, worker: string, token: string, ts: Time) returns (owned: bool)
      ensures owned == Fence(View().queue, id, worker, token, ts)
      ensures owned <==> && worker != "" && token != "" && id in jobs && InWork(jobs[id].status)
                         && jobs[id].worker == Some(worker) && jobs[id].token == Some(token)
                         && jobs[id].expires.Some? && ts < jobs[id].expires.value
    {
      if worker == "" || token == "" { return false; }
      if id !in jobs { return false; }
      var row := jobs[id];
      owned := row.worker == Some(worker) && row.token == Some(token)
               && row.expires.Some? && row.expires.value > ts && Active(row.status);
    }

    // ---- Reconciliation ----

    method ReconcileWorkerRequest(id: JobId, now: Time) returns (changed: bool)
      requires Valid()
      modifies this`requests
      ensures Valid() && View() == Reconcile(old(View()), {id}, now)
      ensures changed <==> View() != old(View())
      ensures RequestsFollow(old(requests), requests, jobs, {id}, attestations, now)
    {
      hide RequestsFollow;
      ghost var before := View();
      ReconcileInRows(before, {id}, now);
      ReconcileKeepsUnique(before, {id}, now);
      if r :| r in requests && requests[r].job == Some(id) {
        ReconcileOneRow(before, id, r, now);
        if id !in jobs { SameRow(r); return false; }
        var request, job := requests[r], jobs[id];
        ProjectedKeepsJob(request, id, job, attestations, now);
        var after := Project(request, id, job, now);
        changed := after.revision != request.revision;
        requests := requests[r := after];
      } else {
        ReconcileNoRow(before, id, now);
        changed := false;
      }
    }

    lemma SameRow(r: RequestId)
      requires r in requests
      ensures requests[r := requests[r]] == requests
    {
    }

    /** The body of the reconciler between the two reads and the revision-checked update. */
    method Project(request: Request, id: JobId, job: Job, now: Time) returns (after: Request)
      ensures after == Projected(request, id, job, attestations, now)
    {
      after := request;
      if !SameIdentity(request, job) { return; }
      var tree := request.identity.tree;
      if !IsSha(tree) { return; }
      if job.tree != "" && job.tree != tree { return; }
      if job.status.Passed? && job.tree != tree { return; }
      if job.status.Passed? && job.exitCode != Some(0) { return; }
      var target;
      if OutcomeOfStatus(job.status).Some? {
        target := Ended(OutcomeOfStatus(job.status).value);
      } else if job.status.Running? {
        target := Executing;
      } else {
        return;
      }
      if request.state.Accepted? || request.state.Preflighting? { return; }
      if request.state.Ended? && request.state != target { return; }
      if request.state.Executing? && target == Executing { return; }
      var attestation := None;
      if job.status.Passed? { attestation := NewestAttestation(request, id, now); }
      var linked := attestation.Some? && attestation.value != "";
      var stateChanged := request.state != target;
      if !stateChanged && !(linked && attestation != request.attestation) { return; }
      var kind := if !stateChanged then AttestationLinked else if target.Ended? then TerminalReconciled else RunningReconciled;
      after := request.(state := target, revision := request.revision + 1,
                        events := request.events + [Event(request.revision + 1, kind, Some(request.state), target)]);
      if linked { after := after.(attestation := attestation); }
    }

    method NewestAttestation(request: Request, id: JobId, now: Time) returns (found: Option<string>)
      ensures found == Matching(attestations, request, id, now)
      ensures forall k :: NewestCertified(attestations, request, id, now, k) ==> found == Some(attestations[k].id)
      ensures found.Some? ==> exists k :: NewestCertified(attestations, request, id, now, k)
    {
      MatchingInRows(attestations, request, id, now);
      NoneIsCertified(attestations, request, id, now);
      var k := |attestations|;
      found := None;
      assert attestations[..k] == attestations;
      while k > 0
        invariant 0 <= k <= |attestations|
        invariant Matching(attestations[..k], request, id, now) == Matching(attestations, request, id, now)
      {
        assert attestations[..k][..k - 1] == attestations[..k - 1];
        if Attests(attestations[k - 1], request, id, now) { return Some(attestations[k - 1].id); }
        k := k - 1;
      }
    }

    // ---- Leasing ----

    /**
     Nothing is leased exactly when the worker asks for no profile, is at its limit, or finds no
     takeable row; otherwise the lease is a step of the queue.
     */
    method LeaseJob(worker: string, profiles: seq<string>, maxConcurrent: int, token: string, ts: Time)
      returns (leased: Option<JobId>)
      requires token !in issued && token != ""
      modifies this`jobs, this`repos, this`issued
      ensures leased.None? <==> (|| profiles == []
                                 || |OwnedBy(old(View()).queue, worker)| >= maxConcurrent
                                 || !exists k :: Takeable(old(View()).queue, profiles, k))
      ensures leased.None? ==> View() == old(View())
      ensures leased.Some? ==>
                var a := DoLease(leased.value, worker, profiles, maxConcurrent, token, ts);
                Enabled(old(View()).queue, a) && View() == Transact(old(View()), QueueAct(a))
      ensures leased.None? <==> (|| profiles == []
                                 || |set i | i in old(jobs) && InWork(old(jobs)[i].status) && old(jobs)[i].worker == Some(worker)| >= maxConcurrent
                                 || !exists k :: k in old(jobs) && InQueue(old(jobs)[k], profiles))
      ensures leased.Some? ==>
                && FirstInLine(old(View()).queue, profiles, leased.value)
                && jobs == old(jobs)[leased.value := old(jobs)[leased.value].(
                     status := Leased, worker := Some(worker), token := Some(token), expires := Some(ts + 120.0),
                     attempts := old(jobs)[leased.value].attempts + 1, startedAt := Some(ts))]
                && LastServed(repos, jobs[leased.value]) == ts
    {
      hide Takeable, IsPick, LeaseTo, QueueStep;
      ghost var before := View();
      leased := None;
      if profiles == [] { return; }
      var running := set i | i in jobs && Active(jobs[i].status) && jobs[i].worker == Some(worker);
      assert running == OwnedBy(before.queue, worker);
      InWorkIsActive(before.queue, worker, profiles);
      if |running| >= maxConcurrent { return; }
      var picked := PickQueued(profiles);
      assert View() == before;
      if picked.Some? {
        PickIsFirstInLine(before.queue, profiles, picked.value);
        LeaseIsStep(before, picked.value, worker, profiles, maxConcurrent, token, ts);
        WriteLease(picked.value, worker, token, ts);
        leased := picked;
      }
    }

    static lemma InWorkIsActive(q: Queue, w: string, profiles: seq<string>)
      ensures OwnedBy(q, w) == set i | i in q.jobs && InWork(q.jobs[i].status) && q.jobs[i].worker == Some(w)
      ensures (exists k :: Takeable(q, profiles, k)) <==> exists k :: k in q.jobs && InQueue(q.jobs[k], profiles)
    {
      if k :| k in q.jobs && InQueue(q.jobs[k], profiles) { assert Takeable(q, profiles, k); }
    }

    method WriteLease(id: JobId, worker: string, token: string, ts: Time)
      requires id in jobs
      modifies this`jobs, this`repos, this`issued
      ensures View() == old(View()).(queue := LeaseTo(old(View()).queue, id, worker, token, ts))
      ensures jobs == old(jobs)[id := old(jobs)[id].(
                status := Leased, worker := Some(worker), token := Some(token), expires := Some(ts + 120.0),
                attempts := old(jobs)[id].attempts + 1, startedAt := Some(ts))]
      ensures LastServed(repos, jobs[id]) == ts
    {
      hide Upsert;
      var row := jobs[id];
      jobs := jobs[id := row.(status := Leased, worker := Some(worker), token := Some(token),
                              expires := Some(ts + LEASE_SECONDS), attempts := row.attempts + 1, startedAt := Some(ts))];
      UpsertRepoQueueState(row.order.repository, -1, 1, Some(ts));
      issued := issued + {token};
    }

    static lemma LeaseIsStep(db: Db, id: JobId, w: string, profiles: seq<string>, limit: int, token: string, ts: Time)
      requires id in db.queue.jobs
      ensures QueueStep(db, DoLease(id, w, profiles, limit, token, ts)) == db.(queue := LeaseTo(db.queue, id, w, token, ts))
    {
      hide LeaseTo;
      ReconcileNothing(db.(queue := LeaseTo(db.queue, id, w, token, ts)), ts);
    }

    /** The scheduling query: a first row among the takeable ones. */
    method PickQueued(profiles: seq<string>) returns (picked: Option<JobId>)
      ensures picked.None? <==> !exists k :: Takeable(View().queue, profiles, k)
      ensures picked.Some? ==> picked.value in jobs && IsPick(View().queue, profiles, picked.value)
    {
      var tables := Queue(jobs, repos, {}, nextStep);
      PickExists(View().queue, profiles);
      IssuedDoesNotMatter(View().queue, tables, profiles);
      picked := None;
      if id :| id in jobs && IsPick(tables, profiles, id) { picked := Some(id); }
    }

    static lemma IssuedDoesNotMatter(q: Queue, q': Queue, profiles: seq<string>)
      requires q' == q.(issued := q'.issued)
      ensures forall i :: IsPick(q', profiles, i) <==> IsPick(q, profiles, i)
    {
      forall i, k | i in q.jobs && k in q.jobs ensures NotAfter(q', i, k) == NotAfter(q, i, k) {
      }
    }

    method RenewLease(id: JobId, token: string, worker: string, ts: Time) returns (renewed: bool)
      modifies this`jobs
      ensures View() == Transact(old(View()), QueueAct(DoRenew(id, worker, token, ts)))
      ensures renewed <==> Renewable(old(View()).queue, id, token, worker, ts)
      ensures renewed <==> && token != "" && id in old(jobs) && InWork(old(jobs)[id].status) && old(jobs)[id].token == Some(token)
                           && (worker == "" || old(jobs)[id].worker == Some(worker))
                           && old(jobs)[id].expires.Some? && ts < old(jobs)[id].expires.value
      ensures jobs == if renewed then old(jobs)[id := old(jobs)[id].(expires := Some(ts + 120.0))] else old(jobs)
    {
      renewed := false;
      if token != "" && id in jobs {
        var row := jobs[id];
        if row.token == Some(token) && row.expires.Some? && row.expires.value > ts && Active(row.status)
           && (worker == "" || row.worker == Some(worker))
        {
          jobs := jobs[id := row.(expires := Some(ts + LEASE_SECONDS))];
          renewed := true;
        }
      }
      ReconcileNothing(View(), ts);
    }

    // ---- Worker callbacks ----

    method CompleteJob(id: JobId, exitCode: int, status: Status, tree: string, worker: string, token: string, ts: Time)
      returns (ok: bool)
      requires Valid()
      modifies this`jobs, this`repos, this`requests
      ensures Valid() && ok == Fence(old(View()).queue, id, worker, token, ts)
      ensures View() == Transact(old(View()), QueueAct(DoCall(id, worker, token, ts, Complete(exitCode, status, tree))))
      ensures ok ==>
                && id in old(jobs)
                && jobs == old(jobs)[id := old(jobs)[id].(
                     status := status, exitCode := Some(exitCode), tree := tree, finishedAt := Some(ts),
                     worker := None, token := None, expires := None)]
                && RequestsFollow(old(requests), requests, jobs, {id}, attestations, ts)
      ensures !ok ==> View() == old(View())
    {
      ok := BeginJobWrite(id, worker, token, ts);
      if !ok {
        ReconcileNothing(View(), ts);
        return;
      }
      var row := jobs[id];
      jobs := jobs[id := row.(status := status, exitCode := Some(exitCode), tree := tree, finishedAt := Some(ts),
                              token := None, expires := None, worker := None)];
      UpsertRepoQueueState(row.order.repository, 0, -1, None);
      var _ := ReconcileWorkerRequest(id, ts);
    }

    method ReleaseJob(id: JobId, worker: string, token: string, ts: Time) returns (ok: bool)
      modifies this`jobs, this`repos
      ensures ok == Fence(old(View()).queue, id, worker, token, ts)
      ensures View() == Transact(old(View()), QueueAct(DoCall(id, worker, token, ts, Release)))
      ensures ok ==>
                && id in old(jobs)
                && jobs == old(jobs)[id := old(jobs)[id].(
                     status := Queued, queuedAt := ts, worker := None, token := None, expires := None,
                     releases := old(jobs)[id].releases + 1)]
      ensures !ok ==> View() == old(View())
    {
      ok := BeginJobWrite(id, worker, token, ts);
      if ok {
        var row := jobs[id];
        jobs := jobs[id := row.(status := Queued, queuedAt := ts, worker := None, token := None, expires := None,
                                releases := row.releases + 1)];
        UpsertRepoQueueState(row.order.repository, 1, -1, None);
      }
      ReconcileNothing(View(), ts);
    }

    method SetJobStatus(id: JobId, status: Status, worker: string, token: string, ts: Time) returns (ok: bool)
      requires Valid()
      modifies this`jobs, this`requests
      ensures Valid() && (ok <==> Fence(old(View()).queue, id, worker, token, ts)
                                  && (status.Running? ==> old(jobs[id]).status.Downloading? || old(jobs[id]).status.Preparing?))
      ensures View() == Transact(old(View()), QueueAct(DoCall(id, worker, token, ts, SetStatus(status))))
      ensures ok ==>
                && jobs == old(jobs)[id := old(jobs)[id].(status := status)]
                && (status.Running? ==> RequestsFollow(old(requests), requests, jobs, {id}, attestations, ts))
                && (!status.Running? ==> requests == old(requests))
      ensures !ok ==> View() == old(View())
    {
      ok := BeginJobWrite(id, worker, token, ts);
      if ok && status.Running? && !jobs[id].status.Downloading? && !jobs[id].status.Preparing? {
        ok := false;
      }
      if ok {
        jobs := jobs[id := jobs[id].(status := status)];
        if status.Running? {
          var _ := ReconcileWorkerRequest(id, ts);
          return;
        }
      }
      ReconcileNothing(View(), ts);
    }

    method SetJobSourceDownloaded(id: JobId, sha256: string, size: int, worker: string, token: string, ts: Time)
      returns (ok: bool)
      modifies this`jobs
      ensures ok == Fence(old(View()).queue, id, worker, token, ts)
      ensures View() == Transact(old(View()), QueueAct(DoCall(id, worker, token, ts, SourceDownloaded(sha256, size))))
      ensures ok ==> id in old(jobs) && jobs == old(jobs)[id := old(jobs)[id].(source := Some((sha256, size)), status := Downloading)]
      ensures !ok ==> View() == old(View())
    {
      ok := BeginJobWrite(id, worker, token, ts);
      if ok { jobs := jobs[id := jobs[id].(source := Some((sha256, size)), status := Downloading)]; }
      ReconcileNothing(View(), ts);
    }

    method AppendLogChunk(id: JobId, content: string, worker: string, token: string, ts: Time) returns (end: Option<int>)
      modifies this`jobs
      ensures end.Some? == Fence(old(View()).queue, id, worker, token, ts)
      ensures end.Some? ==>
                && id in old(jobs) && id in jobs
                && var log, from := old(jobs[id].log), MaxOffset(old(jobs[id].log.chunks));
                   && end.value == from + |content|
                   && jobs[id].log == log.(chunks := log.chunks + [Chunk(MaxIndex(log.chunks) + 1, from, from + |content|, content)],
                                           total := log.total + |content|)
      ensures end.None? ==> View() == old(View())
      ensures View() == Transact(old(View()), QueueAct(DoCall(id, worker, token, ts, WriteLog(Append(content)))))
    {
      var ok := BeginJobWrite(id, worker, token, ts);
      end := None;
      if ok {
        var log := jobs[id].log;
        var from, index := MaxOffset(log.chunks), MaxIndex(log.chunks) + 1;
        var row := Chunk(index, from, from + |content|, content);
        jobs := jobs[id := jobs[id].(log := log.(chunks := log.chunks + [row], total := log.total + |content|))];
        end := Some(from + |content|);
      }
      ReconcileNothing(View(), ts);
    }

    /** The result is the offset and whether the batch was known; None when the lease is stale. */
    method AppendLogBatch(id: JobId, batchId: string, content: string, worker: string, token: string, ts: Time)
      returns (result: Option<(int, bool)>)
      modifies this`jobs
      ensures result.Some? == Fence(old(View()).queue, id, worker, token, ts)
      ensures result.Some? ==>
                && id in old(jobs) && id in jobs
                && var log, from := old(jobs[id].log), MaxOffset(old(jobs[id].log.chunks));
                   if batchId == "" || content == "" then result == Some((0, true)) && jobs[id].log == log
                   else if batchId in log.batches then result == Some((from, true)) && jobs[id].log == log
                   else
                     && result == Some((from + |content|, false))
                     && jobs[id].log == log.(
                          batches := log.batches + {batchId}, total := log.total + |content|,
                          chunks := log.chunks + [Chunk(MaxIndex(log.chunks) + 1, from, from + |content|, content)])
      ensures result.None? ==> View() == old(View())
      ensures View() == Transact(old(View()), QueueAct(DoCall(id, worker, token, ts, WriteLog(Batch(batchId, content)))))
    {
      var ok := BeginJobWrite(id, worker, token, ts);
      result := None;
      if ok {
        var log := jobs[id].log;
        if batchId == "" || content == "" {
          result := Some((0, true));
        } else if batchId in log.batches {
          result := Some((MaxOffset(log.chunks), true));
        } else {
          var from, index := MaxOffset(log.chunks), MaxIndex(log.chunks) + 1;
          var row := Chunk(index, from, from + |content|, content);
          jobs := jobs[id := jobs[id].(log := log.(batches := log.batches + {batchId}, chunks := log.chunks + [row],
                                                   total := log.total + |content|))];
          result := Some((from + |content|, false));
        }
        SameJob(id);
      }
      ReconcileNothing(View(), ts);
    }

    lemma SameJob(id: JobId)
      requires id in jobs
      ensures jobs[id := jobs[id].(log := jobs[id].log)] == jobs
    {
    }

    method AddStepRow(id: JobId, name: string, status: string, worker: string, token: string, ts: Time)
      returns (step: Option<nat>)
      modifies this`jobs, this`nextStep
      ensures step == if Fence(old(View()).queue, id, worker, token, ts) then Some(old(nextStep)) else None
      ensures step.Some? ==>
                && id in old(jobs) && id in jobs && nextStep == old(nextStep) + 1
                && var log, end := old(jobs[id].log), MaxOffset(old(jobs[id].log.chunks));
                   jobs[id].log == log.(steps := log.steps[step.value := Step(name, status, None, end, end)])
      ensures View() == Transact(old(View()), QueueAct(DoCall(id, worker, token, ts, JobQueue.AddStepRow(name, status))))
    {
      var ok := BeginJobWrite(id, worker, token, ts);
      step := None;
      if ok {
        var log := jobs[id].log;
        var start := MaxOffset(log.chunks);
        jobs := jobs[id := jobs[id].(log := log.(steps := log.steps[nextStep := Step(name, status, None, start, start)]))];
        step := Some(nextStep);
        nextStep := nextStep + 1;
      }
      ReconcileNothing(View(), ts);
    }

    method FinishStepRow(id: JobId, step: nat, status: string, exitCode: Option<int>, end: Option<int>,
                         worker: string, token: string, ts: Time) returns (ok: bool)
      modifies this`jobs
      ensures ok <==> Fence(old(View()).queue, id, worker, token, ts) && step in old(jobs[id]).log.steps
      ensures ok ==>
                && id in jobs && step in jobs[id].log.steps
                && var was, now, last := old(jobs[id]).log.steps[step], jobs[id].log.steps[step], MaxOffset(old(jobs[id]).log.chunks);
                   && now == Step(was.name, status, exitCode, was.logStart, now.logEnd)
                   && jobs == old(jobs)[id := old(jobs[id]).(log := old(jobs[id]).log.(steps := old(jobs[id]).log.steps[step := now]))]
                   && (0 <= was.logStart <= last ==>
                       && (end.None? ==> now.logEnd == last)
                       && (end.Some? && was.logStart <= end.value <= last ==> now.logEnd == end.value)
                       && (end.Some? && end.value < was.logStart ==> now.logEnd == was.logStart)
                       && (end.Some? && last < end.value ==> now.logEnd == last))
      ensures !ok ==> View() == old(View())
      ensures View() == Transact(old(View()), QueueAct(DoCall(id, worker, token, ts, WriteLog(EndStep(step, status, exitCode, end)))))
    {
      ok := BeginJobWrite(id, worker, token, ts);
      if ok {
        var log := jobs[id].log;
        if step !in log.steps {
          ok := false;
          SameJob(id);
        } else {
          var start := Max(log.steps[step].logStart, 0);
          var persisted := Max(MaxOffset(log.chunks), start);
          var requested := if end.None? then persisted else end.value;
          var clamped := Min(Max(requested, start), persisted);
          var row := log.steps[step].(status := status, exitCode := exitCode, logEnd := clamped);
          jobs := jobs[id := jobs[id].(log := log.(steps := log.steps[step := row]))];
        }
      }
      ReconcileNothing(View(), ts);
    }

    // ---- Cancellation ----

    method RequestCancelJob(id: JobId, ts: Time) returns (ok: bool)
      modifies this`jobs
      ensures View() == Transact(old(View()), QueueAct(DoRequestCancel(id, ts)))
      ensures ok <==> View() != old(View())
      ensures ok <==> id in old(jobs) && InWork(old(jobs)[id].status) && !old(jobs)[id].cancelRequested
      ensures ok ==> jobs == old(jobs)[id := old(jobs)[id].(cancelRequested := true)]
    {
      ok := id in jobs && !jobs[id].cancelRequested && Active(jobs[id].status);
      if ok {
        jobs := jobs[id := jobs[id].(cancelRequested := true)];
        assert jobs[id] != old(jobs[id]);
      } else if id in jobs && Active(jobs[id].status) {
        assert jobs[id := jobs[id].(cancelRequested := true)] == jobs;
      }
      ReconcileNothing(View(), ts);
    }

    method CancelQueuedJob(id: JobId, ts: Time) returns (ok: bool)
      requires Valid()
      modifies this`jobs, this`repos, this`requests
      ensures Valid() && (ok <==> id in old(jobs) && old(jobs[id]).status.Queued?)
      ensures View() == Transact(old(View()), QueueAct(DoCancelQueued(id, ts)))
      ensures ok ==>
                && jobs == old(jobs)[id := old(jobs)[id].(
                     status := Cancelled, finishedAt := Some(ts), worker := None, token := None, expires := None)]
                && RequestsFollow(old(requests), requests, jobs, {id}, attestations, ts)
      ensures !ok ==> View() == old(View())
    {
      ok := id in jobs && jobs[id].status.Queued?;
      if !ok {
        ReconcileNothing(View(), ts);
        return;
      }
      var row := jobs[id];
      jobs := jobs[id := row.(status := Cancelled, finishedAt := Some(ts), worker := None, token := None, expires := None)];
      UpsertRepoQueueState(row.order.repository, -1, 0, None);
      var _ := ReconcileWorkerRequest(id, ts);
    }

    // ---- Recovery ----

    /** The statements both recoveries issue for one lost attempt. */
    method RecoverRow(id: JobId, ts: Time)
      requires id in jobs
      modifies this`jobs, this`repos
      ensures View() == old(View()).(queue := RecoverOne(old(View()).queue, id, ts))
    {
      hide Upsert;
      var row := jobs[id];
      if row.attempts >= row.maxAttempts {
        jobs := jobs[id := row.(status := WorkerLost, finishedAt := Some(ts), worker := None, token := None, expires := None)];
        UpsertRepoQueueState(row.order.repository, 0, -1, None);
      } else {
        jobs := jobs[id := row.(status := Queued, queuedAt := ts, worker := None, token := None, expires := None)];
        UpsertRepoQueueState(row.order.repository, 1, -1, None);
      }
    }

    method RecoverWorkerJobs(worker: string, ts: Time) returns (count: nat)
      modifies this`jobs, this`repos
      ensures View() == Transact(old(View()), QueueAct(DoRecoverWorker(worker, ts)))
      ensures count == |OwnedBy(old(View()).queue, worker)| && jobs.Keys == old(jobs).Keys
      ensures forall i :: i in old(jobs) ==>
                jobs[i] == if InWork(old(jobs)[i].status) && old(jobs)[i].worker == Some(worker)
                           then AfterLoss(old(jobs)[i], ts) else old(jobs)[i]
    {
      hide RecoverRows;
      var rows := set i | i in jobs && Active(jobs[i].status) && jobs[i].worker == Some(worker);
      assert rows == OwnedBy(View().queue, worker);
      count := |rows|;
      RecoveryInRows(View().queue, rows, ts);
      RecoverEach(rows, ts);
      ReconcileNothing(View(), ts);
    }

    method RecoverEach(rows: set<JobId>, ts: Time)
      requires rows <= jobs.Keys
      modifies this`jobs, this`repos
      ensures View() == old(View()).(queue := RecoverRows(old(View()).queue, rows, ts))
    {
      hide RecoverRows, RecoverOne;
      ghost var before := View();
      var left := rows;
      ghost var done: set<JobId> := {};
      RecoverNothing(before.queue, ts);
      while left != {}
        invariant left !! done && left + done == rows
        invariant View() == before.(queue := RecoverRows(before.queue, done, ts))
        decreases |left|
      {
        var id :| id in left;
        RecoverOneMore(before.queue, done, id, ts);
        RecoverRow(id, ts);
        left, done := left - {id}, done + {id};
      }
      assert done == rows;
    }

    method RecoverExpiredLeases(ts: Time) returns (count: nat)
      requires Valid()
      modifies this`jobs, this`repos, this`requests
      ensures Valid() && View() == Transact(old(View()), QueueAct(DoRecoverExpired(ts)))
      ensures count == |Expired(old(View()).queue, ts)| && jobs.Keys == old(jobs).Keys
      ensures forall i :: i in old(jobs) ==>
                jobs[i] == if Overdue(old(jobs)[i], ts) then AfterLoss(old(jobs)[i], ts) else old(jobs)[i]
      ensures RequestsFollow(old(requests), requests, jobs, (set i | i in old(jobs) && Overdue(old(jobs)[i], ts)), attestations, ts)
    {
      hide RecoverRows, Reconcile, RequestsFollow;
      var rows := set i | i in jobs && Active(jobs[i].status) && jobs[i].expires.Some? && jobs[i].expires.value < ts;
      assert rows == Expired(View().queue, ts);
      count := |rows|;
      ghost var before := View();
      assert rows == set i | i in jobs && Overdue(jobs[i], ts);
      RecoveryInRows(before.queue, rows, ts);
      ReconcileInRows(before.(queue := RecoverRows(before.queue, rows, ts)), rows, ts);
      RecoverAndReconcileEach(rows, ts);
    }

    method RecoverAndReconcileEach(rows: set<JobId>, ts: Time)
      requires Valid() && rows <= jobs.Keys
      modifies this`jobs, this`repos, this`requests
      ensures Valid()
      ensures View() == Reconcile(old(View()).(queue := RecoverRows(old(View()).queue, rows, ts)), rows, ts)
    {
      hide RecoverRows, RecoverOne, Reconcile;
      ghost var before := View();
      var left := rows;
      ghost var done: set<JobId> := {};
      RecoverNothing(before.queue, ts);
      ReconcileNothing(before, ts);
      while left != {}
        invariant left !! done && left + done == rows && Valid()
        invariant View() == Reconcile(before.(queue := RecoverRows(before.queue, done, ts)), done, ts)
        decreases |left|
      {
        var id :| id in left;
        ghost var q, q' := RecoverRows(before.queue, done, ts), RecoverRows(before.queue, done + {id}, ts);
        RecoverOneMore(before.queue, done, id, ts);
        ReconcileOneMore(before, q, q', done, id, ts);
        ReconcileKeepsQueue(before.(queue := q), done, ts);
        RecoverRow(id, ts);
        var _ := ReconcileWorkerRequest(id, ts);
        left, done := left - {id}, done + {id};
      }
      assert done == rows;
    }

    // ---- Creation ----

    /** Reuse the newest live or passed job, or supersede and insert; a taken id rolls back. */
    method CreateOrGetInTransaction(id: JobId, order: Order, force: bool, supersede: bool, ts: Time) returns (job: Option<JobId>)
      modifies this`jobs, this`repos
      ensures View() == old(View()).(queue := CreateOrGet(old(View()).queue, id, order, force, supersede, ts))
      ensures if !force && HasReusable(old(View()).queue, order.key)
              then job.Some? && NewestReusable(old(View()).queue, order.key, job.value)
              else job == if id in old(jobs) then None else Some(id)
    {
      ghost var q := View().queue;
      if !force {
        var tables := Queue(jobs, repos, {}, nextStep);
        assert forall i :: NewestReusable(tables, order.key, i) == NewestReusable(q, order.key, i);
        NewestExistsIff(q, order.key);
        if i :| i in jobs && NewestReusable(tables, order.key, i) { return Some(i); }
      }
      var savedJobs, savedRepos := jobs, repos;
      if supersede { SupersedeQueued(id, order, ts); }
      if id in jobs {
        jobs, repos := savedJobs, savedRepos;
        return None;
      }
      jobs := jobs[id := NewJob(order, ts)];
      UpsertRepoQueueState(order.repository, 1, 0, None);
      job := Some(id);
    }

    /** What creation does, row by row: reuse the newest job that serves the key, or insert one and retire others. */
    method CreateOrGetJob(id: JobId, order: Order, force: bool, supersede: bool, ts: Time) returns (job: Option<JobId>)
      modifies this`jobs, this`repos
      ensures View() == old(View()).(queue := CreateOrGet(old(View()).queue, id, order, force, supersede, ts))
      ensures if !force && exists i :: i in old(jobs) && Serves(old(jobs)[i], order.key)
              then
                && View() == old(View()) && job.Some? && job.value in jobs && Serves(jobs[job.value], order.key)
                && forall i :: i in jobs && Serves(jobs[i], order.key) ==> jobs[i].createdAt <= jobs[job.value].createdAt
              else if id in old(jobs) then job == None && View() == old(View())
              else
                && job == Some(id) && jobs.Keys == old(jobs).Keys + {id} && Fresh(jobs[id], order, ts)
                && forall k :: k in old(jobs) ==>
                   jobs[k] == if supersede && GivesWay(old(jobs)[k], order)
                              then old(jobs)[k].(status := Superseded, supersededBy := Some(id), finishedAt := Some(ts),
                                                 worker := None, token := None, expires := None)
                              else old(jobs)[k]
    {
      hide CreateOrGet, Reusable, NewestReusable, HasReusable, Serves, GivesWay, Fresh;
      CreationInRows(View().queue, id, order, force, supersede, ts);
      ServingIsReusable(View().queue, order.key);
      job := CreateOrGetInTransaction(id, order, force, supersede, ts);
    }

    static lemma ServingIsReusable(q: Queue, key: JobKey)
      ensures HasReusable(q, key) <==> exists i :: i in q.jobs && Serves(q.jobs[i], key)
      ensures forall i :: NewestReusable(q, key, i) ==>
                && i in q.jobs && Serves(q.jobs[i], key)
                && forall k :: k in q.jobs && Serves(q.jobs[k], key) ==> q.jobs[k].createdAt <= q.jobs[i].createdAt
    {
      forall i ensures Reusable(q, key, i) <==> i in q.jobs && Serves(q.jobs[i], key) {
        ServesIsReusable(q, key, i);
      }
    }

    method SupersedeRow(id: JobId, successor: JobId, ts: Time)
      requires id in jobs
      modifies this`jobs, this`repos
      ensures View() == old(View()).(queue := SupersedeOne(old(View()).queue, id, successor, ts))
    {
      var row := jobs[id];
      jobs := jobs[id := row.(status := Superseded, supersededBy := Some(successor), finishedAt := Some(ts),
                              worker := None, token := None, expires := None)];
      UpsertRepoQueueState(row.order.repository, -1, 0, None);
    }

    method SupersedeRows(rows: set<JobId>, successor: JobId, repository: string, ts: Time)
      requires forall i :: i in rows ==> i in jobs && jobs[i].order.repository == repository
      modifies this`jobs, this`repos
      ensures View() == old(View()).(queue := Supersede(old(View()).queue, rows, successor, repository, ts))
    {
      hide Supersede, SupersedeOne;
      ghost var before := View();
      var left := rows;
      ghost var done: set<JobId> := {};
      SupersedeNothing(before.queue, successor, repository, ts);
      while left != {}
        invariant left !! done && left + done == rows
        invariant View() == before.(queue := Supersede(before.queue, done, successor, repository, ts))
        decreases |left|
      {
        var id :| id in left;
        SupersedeOneMore(before.queue, done, id, successor, repository, ts);
        SupersedeRow(id, successor, ts);
        left, done := left - {id}, done + {id};
      }
      assert done == rows;
    }

    method SupersedeQueued(successor: JobId, order: Order, ts: Time)
      modifies this`jobs, this`repos
      ensures View() == old(View()).(queue := Supersede(old(View()).queue, Replaced(old(View()).queue, order),
                                                         successor, order.repository, ts))
    {
      hide Supersede;
      var rows := set i | i in jobs && jobs[i].status.Queued? && jobs[i].order.key != order.key
                          && jobs[i].order.repository == order.repository && jobs[i].order.branch == order.branch
                          && jobs[i].order.profile == order.profile;
      assert rows == Replaced(View().queue, order);
      SupersedeRows(rows, successor, order.repository, ts);
    }

    /** cleanup_old_jobs: finished jobs disappear and the Requests bound to them lose the reference. */
    method CleanupOldJobs(cutoff: Time, ts: Time) returns (removed: nat)
      requires Valid()
      modifies this`jobs, this`requests
      ensures Valid() && View() == Transact(old(View()), QueueAct(DoCleanup(cutoff, ts)))
      ensures removed == |old(jobs).Keys| - |jobs.Keys|
      ensures forall i :: i in jobs <==>
                i in old(jobs) && !(old(jobs)[i].finishedAt.Some? && old(jobs)[i].finishedAt.value < cutoff)
      ensures forall i :: i in jobs ==> jobs[i] == old(jobs)[i]
      ensures requests.Keys == old(requests).Keys
      ensures forall r :: r in requests ==>
                requests[r] == if old(requests)[r].job.Some? && old(requests)[r].job.value !in jobs
                               then old(requests)[r].(job := None) else old(requests)[r]
    {
      hide Reconcile;
      var gone := set i | i in jobs && jobs[i].finishedAt.Some? && jobs[i].finishedAt.value < cutoff;
      removed := |gone|;
      RemovedKeys(jobs, gone);
      CleanupIsRemoval(View().queue, cutoff, gone);
      hide Cleanup;
      jobs := jobs - gone;
      requests := map r | r in requests ::
        if requests[r].job.Some? && requests[r].job.value !in jobs then requests[r].(job := None) else requests[r];
      ReconcileNothing(View(), ts);
    }

    static lemma RemovedKeys(rows: map<JobId, Job>, gone: set<JobId>)
      requires gone <= rows.Keys
      ensures |gone| == |rows.Keys| - |(rows - gone).Keys|
    {
      assert rows.Keys == (rows - gone).Keys + gone;
    }

    static lemma CleanupIsRemoval(q: Queue, cutoff: Time, gone: set<JobId>)
      requires gone == set i | i in q.jobs && q.jobs[i].finishedAt.Some? && q.jobs[i].finishedAt.value < cutoff
      ensures Cleanup(q, cutoff) == q.(jobs := q.jobs - gone)
    {
      assert Cleanup(q, cutoff).jobs == q.jobs - gone;
    }

    // ---- Durable Requests ----

    /** The result names the key's row when there is one; anything but Created leaves the tables alone. */
    method CreateOrGetCiRequest(id: RequestId, n: Identity, key: string, hash: string, payload: Option<Payload>, now: Time)
      returns (outcome: CreateOutcome, ghost found: RequestId)
      requires Valid()
      modifies this`requests
      ensures Valid() && Possible(old(View()), CreateAct(id, n, key, hash, payload, found, now))
      ensures outcome == CreateOutcomeOf(old(View()), id, n, key, hash, found)
      ensures View() == Transact(old(View()), CreateAct(id, n, key, hash, payload, found, now))
      ensures outcome.InvalidIdentity? <==> !WellFormed(n, key, hash)
      ensures outcome.Created? ==>
                && (forall r :: r in old(requests) ==> r != id && old(requests)[r].idempotencyKey != key)
                && requests == old(requests)[id := Request(n, key, hash, payload, now, Accepted, 0, None, "", None,
                                                           [Event(0, WasAccepted, None, Accepted)])]
      ensures outcome.Deduplicated? ==> outcome.existing in old(requests) && Repeats(n, old(requests)[outcome.existing], key, hash)
      ensures outcome.IdempotencyConflict? || outcome.IdentityMismatch? ==>
                exists r :: r in old(requests) && old(requests)[r].idempotencyKey == key && !Repeats(n, old(requests)[r], key, hash)
      ensures !outcome.Created? ==> View() == old(View())
    {
      HexInRows(n.commit);
      HexInRows(n.tree);
      HexInRows(hash);
      hide IsSha, IsHash, LowerHex;
      found := id;
      if k :| HasKey(View(), key, k) { found := k; }
      if !ValidIdentity(n, key, hash) { return InvalidIdentity, found; }
      if row :| row in requests && requests[row].idempotencyKey == key {
        assert HasKey(View(), key, row);
        found := row;
        var existing := requests[row];
        if existing.hash != hash { return IdempotencyConflict, found; }
        var expected := if n.tree == "" then n.(tree := existing.identity.tree) else n;
        if existing.identity != expected { return IdentityMismatch, found; }
        return Deduplicated(row), found;
      }
      if id in requests { return IdTaken, found; }
      requests := requests[id := Request(n, key, hash, payload, now, Accepted, 0, None, "", None,
                                         [Event(0, WasAccepted, None, Accepted)])];
      outcome := Created;
    }

    method CheckTransition(id: RequestId, expected: int, to: State, job: Option<JobId>, m: Metadata)
      returns (outcome: TransitionOutcome)
      ensures outcome == TransitionOutcomeOf(View(), id, expected, to, job, m)
    {
      hide Allowed, SameIdentity, MetadataFits;
      if id !in requests { return NotFound; }
      var row := requests[id];
      if row.revision != expected { return RevisionConflict; }
      if !Allowed(row.state, to) { return IllegalTransition; }
      var held := if job.Some? then job else row.job;
      if (to.Enqueued? || to.Executing?) && held.None? { return IllegalTransition; }
      if held.Some? {
        if held.value !in jobs || !SameIdentity(row, jobs[held.value]) { return WrongIdentity; }
        if row.job.Some? && row.job != held { return WrongIdentity; }
      }
      if !MetadataFits(to, m) { return IllegalTransition; }
      if held.Some? && !(forall r :: r in requests && r != id ==> requests[r].job != held) { return JobClaimed; }
      outcome := Moved;
    }

    method TransitionCiRequest(id: RequestId, expected: int, to: State, job: Option<JobId>, m: Metadata, now: Time)
      returns (outcome: TransitionOutcome)
      requires Valid()
      modifies this`requests
      ensures Valid() && outcome == TransitionOutcomeOf(old(View()), id, expected, to, job, m)
      ensures View() == Transact(old(View()), TransitionAct(id, expected, to, job, m, now))
      ensures outcome.Moved? ==>
                && id in old(requests) && old(requests)[id].revision == expected && Legal(old(requests)[id].state, to)
                && var row := old(requests)[id];
                   requests == old(requests)[id := row.(
                     state := to, revision := expected + 1,
                     events := row.events + [Event(expected + 1, Transitioned, Some(row.state), to)],
                     job := if job.Some? then job else row.job,
                     preflightError := if m.preflightCode != "" then m.preflightCode else row.preflightError,
                     attestation := if m.attestation != "" then Some(m.attestation) else row.attestation)]
      ensures outcome.Moved? ==>
                && (m.preflightCode != "" <==> RequestWord(to) == "preflight_failed")
                && (m.attestation != "" ==> RequestWord(to) == "passed") && (m.reason != "" || m.failurePack != "" ==> to.Ended?)
      ensures !outcome.Moved? ==> View() == old(View())
    {
      hide Allowed, SameIdentity, UniqueBindings;
      if id in requests { LegalIsAllowed(requests[id].state, to); }
      hide Legal;
      outcome := CheckTransition(id, expected, to, job, m);
      if !outcome.Moved? { return; }
      var row := requests[id];
      var event := Event(row.revision + 1, Transitioned, Some(row.state), to);
      row := row.(state := to, revision := row.revision + 1, events := row.events + [event],
                  job := if job.Some? then job else row.job,
                  preflightError := if m.preflightCode != "" then m.preflightCode else row.preflightError,
                  attestation := if m.attestation != "" then Some(m.attestation) else row.attestation);
      BindingKeepsUnique(requests, id, row);
      requests := requests[id := row];
    }

    /** Create or reuse the Worker Job of a Request and check its identity, or leave the tables alone. */
    method CreateCiRequestJob(id: RequestId, row: Request, newJob: JobId, now: Time)
      returns (job: Option<JobId>, ghost reused: JobId)
      requires row.payload.Some?
      modifies this`jobs, this`repos
      ensures var q := old(View()).queue;
              && (HasReusable(q, RequestKey(id)) ==> NewestReusable(q, RequestKey(id), reused))
              && (job.Some? <==> if HasReusable(q, RequestKey(id)) then reused in q.jobs && SameIdentity(row, q.jobs[reused])
                                 else newJob !in q.jobs)
              && (job.Some? ==> job.value == if HasReusable(q, RequestKey(id)) then reused else newJob)
              && View() == if job.Some?
                           then old(View()).(queue := CreateOrGet(q, newJob, OrderOf(id, row), false, row.payload.value.supersede, now))
                           else old(View())
      ensures job.Some? ==> job.value in jobs && OrderedFor(row, jobs[job.value])
      ensures job.Some? && !(exists i :: i in old(jobs) && Serves(old(jobs)[i], RequestKey(id))) ==>
                job == Some(newJob) && newJob in jobs
                && Fresh(jobs[newJob], Order(RequestKey(id), row.identity.repository, row.identity.branch, row.identity.commit,
                                             row.identity.profile, row.payload.value.priority), now)
    {
      hide CreateOrGet, Reusable, Fresh, Serves, GivesWay;
      ServingIsReusable(View().queue, RequestKey(id));
      CreationInRows(View().queue, newJob, OrderOf(id, row), false, row.payload.value.supersede, now);
      ghost var q := View().queue;
      reused := newJob;
      var savedJobs, savedRepos := jobs, repos;
      var order := Order(RequestKey(id), row.identity.repository, row.identity.branch, row.identity.commit,
                         row.identity.profile, row.payload.value.priority);
      job := CreateOrGetInTransaction(newJob, order, false, row.payload.value.supersede, now);
      if job.None? {
        jobs, repos := savedJobs, savedRepos;
        return;
      }
      if HasReusable(q, RequestKey(id)) { reused := job.value; }
      CreatedJob(q, newJob, order, row.payload.value.supersede, now, job.value);
      if !SameIdentity(row, jobs[job.value]) {
        jobs, repos := savedJobs, savedRepos;
        job := None;
      }
    }

    /** The guards before the first write; None when they all pass. */
    method CheckDispatch(id: RequestId, expected: int, tree: string) returns (refused: Option<DispatchOutcome>)
      ensures refused == RefusedBefore(View(), id, expected, tree)
    {
      if !IsSha(tree) { return Some(InvalidTree); }
      if id !in requests { return Some(DispatchNotFound); }
      var row := requests[id];
      if row.state.Enqueued? || row.state.Executing? || row.state.Ended? { return Some(AlreadyDispatched); }
      if !row.state.Preflighting? { return Some(NotPreparing); }
      if row.revision != expected { return Some(StaleRevision); }
      if row.identity.tree != "" && row.identity.tree != tree { return Some(TreeMismatch); }
      if row.payload.None? { return Some(IncompletePayload); }
      refused := None;
    }

    /**
     One transaction: create or reuse the Worker Job, check it, bind it and advance. Any refusal after
     the job was written rolls the whole transaction back.
     */
    method DispatchCiRequest(id: RequestId, expected: int, tree: string, newJob: JobId, now: Time)
      returns (outcome: DispatchOutcome, ghost reused: JobId)
      requires Valid()
      modifies this`jobs, this`repos, this`requests
      ensures Valid() && Possible(old(View()), DispatchAct(id, expected, tree, newJob, reused, now))
      ensures outcome == DispatchOutcomeOf(old(View()), id, expected, tree, newJob, reused)
      ensures View() == Transact(old(View()), DispatchAct(id, expected, tree, newJob, reused, now))
      ensures outcome.Dispatched? ==>
                && id in old(requests) && old(requests)[id].revision == expected && old(requests)[id].state == Preflighting
                && var row := old(requests)[id];
                   && (row.identity.tree == "" || row.identity.tree == tree) && row.payload.Some?
                   && requests == old(requests)[id := row.(
                        identity := row.identity.(tree := tree), job := Some(outcome.job), state := Enqueued, revision := expected + 1,
                        events := row.events + [Event(expected + 1, WorkerQueued, Some(Preflighting), Enqueued)])]
                   && outcome.job in jobs && OrderedFor(row, jobs[outcome.job])
                   && (!(exists i :: i in old(jobs) && Serves(old(jobs)[i], RequestKey(id))) ==>
                       && outcome.job == newJob
                       && Fresh(jobs[newJob], Order(RequestKey(id), row.identity.repository, row.identity.branch, row.identity.commit,
                                                    row.identity.profile, row.payload.value.priority), now))
      ensures !outcome.Dispatched? ==> View() == old(View())
    {
      hide CreateOrGet, NewestReusable, HasReusable, RefusedBefore, SameIdentity, UniqueBindings, Fresh, Serves, OrderedFor;
      RefusedDecides(View(), id, expected, tree);
      reused := newJob;
      if HasReusable(View().queue, RequestKey(id)) {
        NewestExists(View().queue, RequestKey(id));
        reused :| NewestReusable(View().queue, RequestKey(id), reused);
      }
      var refused := CheckDispatch(id, expected, tree);
      if refused.Some? { return refused.value, reused; }
      var row := requests[id];
      var savedJobs, savedRepos := jobs, repos;
      var job;
      job, reused := CreateCiRequestJob(id, row, newJob, now);
      if job.None? { return JobRefused, reused; }
      if !(forall r :: r in requests && r != id ==> requests[r].job != job) {
        jobs, repos := savedJobs, savedRepos;
        return JobRefused, reused;
      }
      var event := Event(row.revision + 1, WorkerQueued, Some(row.state), Enqueued);
      row := row.(identity := row.identity.(tree := tree), job := job, state := Enqueued,
                  revision := row.revision + 1, events := row.events + [event]);
      BindingKeepsUnique(requests, id, row);
      requests := requests[id := row];
      outcome := Dispatched(job.value);
    }

    /** The job that creation returns is in the tables, with the ordered identity when it is new. */
    static lemma CreatedJob(q: Queue, id: JobId, order: Order, supersede: bool, ts: Time, job: JobId)
      requires if HasReusable(q, order.key) then NewestReusable(q, order.key, job) else id !in q.jobs && job == id
      ensures var q' := CreateOrGet(q, id, order, false, supersede, ts);
              && job in q'.jobs
              && (HasReusable(q, order.key) ==> job in q.jobs && q'.jobs[job] == q.jobs[job])
              && (!HasReusable(q, order.key) ==> q'.jobs[job].order == order)
    {
      hide Upsert;
    }

    /** list_pending_ci_requests: the oldest pending Requests, never more than 1000. */
    method ListPendingCiRequests(limit: int) returns (rows: seq<RequestId>)
      ensures IsPage(requests, limit, rows)
    {
      hide Before, PendingIds, Taken, IsPage;
      var left := PendingIds(requests);
      rows := [];
      NothingTaken(requests);
      while left != {} && |rows| < Limit(limit)
        invariant Taken(requests, rows, left) && left <= requests.Keys && |rows| <= Limit(limit)
        decreases |left|
      {
        ghost var first := FirstExists(requests, left);
        var r :| r in left && forall p :: p in left ==> Before(requests, r, p);
        TakeOneMore(requests, rows, left, r);
        rows, left := rows + [r], left - {r};
      }
      TakenIsPage(requests, limit, rows, left);
    }

    /** Startup repair, one bound job at a time; the count is the number of Requests that moved. */
    method ReconcilePendingWorkerRequests(now: Time) returns (count: nat)
      requires Valid()
      modifies this`requests
      ensures Valid() && View() == Transact(old(View()), RepairAct(now))
      ensures count == |Changed(old(requests), requests)|
      ensures requests.Keys == old(requests).Keys
      ensures forall r :: r in old(requests) ==>
                var row := old(requests)[r];
                if row.job.Some? && row.job.value in jobs && (IsLive(row) || (row.state == Ended(DidPass) && row.attestation.None?))
                then FollowsJob(row, requests[r], row.job.value, jobs[row.job.value], attestations, now)
                else requests[r] == row
    {
      hide FollowsJob;
      RepairInRows(View(), now);
      var rows := set r | r in requests && NeedsRepair(requests[r]) :: requests[r].job.value;
      RepairIsReconcile(View(), rows, now);
      count := ReconcileEach(rows, now);
    }

    method ReconcileEach(rows: set<JobId>, now: Time) returns (count: nat)
      requires Valid()
      modifies this`requests
      ensures Valid() && View() == Reconcile(old(View()), rows, now)
      ensures count == |Changed(old(requests), requests)|
    {
      hide Reconcile;
      ghost var before := View();
      var left := rows;
      ghost var done: set<JobId> := {};
      ReconcileNothing(before, now);
      count := 0;
      assert Changed(before.requests, requests) == {};
      while left != {}
        invariant left !! done && left + done == rows && Valid()
        invariant View() == Reconcile(before, done, now)
        invariant count == |Changed(before.requests, requests)|
        decreases |left|
      {
        var id :| id in left;
        ReconcileOneMore(before, before.queue, before.queue, done, id, now);
        ChangedOneMore(before, done, id, now);
        assert before.(queue := before.queue) == before && View().(queue := before.queue) == View();
        var changed := ReconcileWorkerRequest(id, now);
        if changed { count := count + 1; }
        left, done := left - {id}, done + {id};
      }
      assert done == rows;
    }
  }
}
