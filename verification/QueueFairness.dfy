/** No repository starves: the order by last dispatch serves every waiting repository in turn. */
module QueueFairness {
  import opened LogStore
  import opened JobQueue
  import opened QueueSafety
  import opened QueueRuns

  /** Repository `repo` waits with a job of this profile and priority, and nothing ahead is takeable. */
  ghost predicate Waits(q: Queue, repo: string, profile: string, priority: int, profiles: seq<string>) {
    && (exists b :: b in q.jobs && q.jobs[b].status.Queued? && q.jobs[b].order.repository == repo
                    && q.jobs[b].order.profile == profile && q.jobs[b].order.priority == priority)
    && forall i :: i in q.jobs && Takeable(q, profiles, i) ==> q.jobs[i].order.priority <= priority
  }

  /** A lease that could have taken the waiting job. */
  predicate Counted(a: Action, profile: string) { a.DoLease? && profile in a.profiles }

  ghost function CountedLeases(acts: seq<Action>, profile: string): nat {
    if acts == [] then 0 else One(Counted(acts[0], profile)) + CountedLeases(acts[1..], profile)
  }

  ghost predicate WithinRepos(q: Queue, repos: set<string>) {
    forall i :: i in q.jobs ==> q.jobs[i].order.repository in repos
  }

  /**
   A run in which `repo` is passed over: it waits at every counted lease, no lease takes one of its
   jobs, the dispatch clock strictly increases from t, and all jobs belong to a fixed set of
   repositories. Everything else may interleave freely.
   */
  ghost predicate PassedOver(q: Queue, acts: seq<Action>, repo: string, profile: string, priority: int,
                             repos: set<string>, t: Time)
    decreases |acts|
  {
    && WithinRepos(q, repos)
    && (acts != [] ==>
      && Enabled(q, acts[0])
      && (Counted(acts[0], profile) ==> Waits(q, repo, profile, priority, acts[0].profiles))
      && (acts[0].DoLease? ==> q.jobs[acts[0].id].order.repository != repo && t < acts[0].now)
      && PassedOver(Next(q, acts[0]), acts[1..], repo, profile, priority, repos, if acts[0].DoLease? then acts[0].now else t))
  }

  lemma OnlyLeasesDispatch(q: Queue, a: Action, r: string)
    requires Enabled(q, a)
    ensures Row(Next(q, a).repos, r).lastDispatched
         == if a.DoLease? && q.jobs[a.id].order.repository == r then a.now else Row(q.repos, r).lastDispatched
  {
    hide NotAfter, Reusable, AddStep, Apply, InRepo, Requeued, Recovered, Unleased;
  }

  /** A counted lease that passes over `repo` goes to a repository dispatched no later than it. */
  lemma PickIsNotLater(q: Queue, a: Action, repo: string, profile: string, priority: int)
    requires Enabled(q, a) && Counted(a, profile) && Waits(q, repo, profile, priority, a.profiles)
    ensures LastDispatched(q, a.id) <= Row(q.repos, repo).lastDispatched
  {
    var b :| b in q.jobs && q.jobs[b].status.Queued? && q.jobs[b].order.repository == repo
             && q.jobs[b].order.profile == profile && q.jobs[b].order.priority == priority;
    assert Takeable(q, a.profiles, b);
    assert NotAfter(q, a.id, b);
  }

  /** The repositories served since the wait began all have a later dispatch than `repo`. */
  ghost predicate Served(q: Queue, served: set<string>, repo: string, repos: set<string>, t: Time) {
    && served <= repos - {repo}
    && (forall r :: r in served ==> Row(q.repos, r).lastDispatched > Row(q.repos, repo).lastDispatched)
    && Row(q.repos, repo).lastDispatched <= t
  }

  /** Who has been served after one more step. */
  function ServedAfter(q: Queue, a: Action, profile: string, served: set<string>): set<string>
    requires a.DoLease? ==> a.id in q.jobs
  {
    if Counted(a, profile) then served + {q.jobs[a.id].order.repository} else served
  }

  /** A counted lease serves a repository that was not served yet; other steps serve nobody. */
  lemma ServedStep(q: Queue, a: Action, repo: string, profile: string, priority: int, repos: set<string>, t: Time,
                   served: set<string>)
    requires Enabled(q, a) && WithinRepos(q, repos) && Served(q, served, repo, repos, t)
    requires Counted(a, profile) ==> Waits(q, repo, profile, priority, a.profiles)
    requires a.DoLease? ==> q.jobs[a.id].order.repository != repo && t < a.now
    ensures |ServedAfter(q, a, profile, served)| == |served| + One(Counted(a, profile))
    ensures Served(Next(q, a), ServedAfter(q, a, profile, served), repo, repos, if a.DoLease? then a.now else t)
  {
    hide Next, NotAfter;
    if Counted(a, profile) { PickIsNotLater(q, a, repo, profile, priority); }
    hide Waits;
    forall r ensures Row(Next(q, a).repos, r).lastDispatched
                  == if a.DoLease? && q.jobs[a.id].order.repository == r then a.now else Row(q.repos, r).lastDispatched
    {
      OnlyLeasesDispatch(q, a, r);
    }
    hide Row;
  }

  lemma {:induction false} EachIsServedOnce(q: Queue, acts: seq<Action>, repo: string, profile: string, priority: int,
                                            repos: set<string>, t: Time, served: set<string>)
    requires repo in repos && PassedOver(q, acts, repo, profile, priority, repos, t) && Served(q, served, repo, repos, t)
    ensures |served| + CountedLeases(acts, profile) <= |repos| - 1
    decreases |acts|
  {
    hide Next, NotAfter, Waits, Counted;
    if acts == [] {
      Subset(served, repos - {repo});
    } else {
      var a, t' := acts[0], if acts[0].DoLease? then acts[0].now else t;
      ServedStep(q, a, repo, profile, priority, repos, t, served);
      hide Served, ServedAfter;
      EachIsServedOnce(Next(q, a), acts[1..], repo, profile, priority, repos, t', ServedAfter(q, a, profile, served));
    }
  }

  /**
   No starvation: while a repository keeps a job waiting at the highest takeable priority, at most
   N-1 leases that could have taken it go to the other repositories before it is dispatched.
   */
  lemma NoStarvation(q: Queue, acts: seq<Action>, repo: string, profile: string, priority: int, repos: set<string>, t: Time)
    requires repo in repos && PassedOver(q, acts, repo, profile, priority, repos, t)
    requires Row(q.repos, repo).lastDispatched <= t
    ensures CountedLeases(acts, profile) <= |repos| - 1
  {
    EachIsServedOnce(q, acts, repo, profile, priority, repos, t, {});
  }
}
