# Verification of the private CI control plane

This project models the durable core of `services/github-action-service/app` in Dafny 4.11 and proves what
it is for. `dafny verify dfyconfig.toml` checks all of it.

Every SQLite transaction of the service is one atomic step. Clock, random tokens, new ids, GitHub answers
and preflight results are parameters, and any number of callers may interleave. A step is a function from
the tables before to the tables after; runs are sequences of steps with arbitrary arguments. The code that
updates rows in place is modelled as classes whose methods follow it statement by statement and are proved
to be exactly those steps.

| part | files |
|---|---|
| Lease-fenced job queue: accounting, fencing, attempts, fairness, order | `JobQueue`, `QueueSafety`, `QueueRuns`, `QueueFairness`, `QueueRows` |
| Durable Requests: histories, exactly-once dispatch, sound pass, following, startup repair | `RequestStore`, `RequestRows`, `RequestSafety`, `DispatchSafety`, `RequestFollowing` |
| The tables as one object, and the dispatcher that drives it | `BulkWrites`, `PendingRequests`, `CiDatabase`, `RequestDispatch` |
| Logs: UTF-8 budget, appends and steps, paging, tail, step merge | `Utf8`, `LogStore`, `LogPages`, `LogTail`, `StepMerge` |
| Git-identity recovery over a commit graph | `GitGraph`, `Strings`, `DriftRecovery`, `ScopeReview`, `BaseSync` |
| Convergence under stale snapshots | `ConvergenceStore`, `Convergence`, `CallerTurns`, `ConvergenceReplay`, `ConvergenceDriver` |
| Prepared writes | `PreparedWrites` |
| Failure locations | `LocationParser` |

## What the proofs found

- The queue counters are exact only while workers report sensible words. `complete_job` and
  `set_job_status` store any word: a completion as `running` or a status change to `passed` breaks the
  counters for good. `QueueSafety.CallIsExactIff` gives the exact condition, the runs in `QueueRuns`
  assume it as `WellReported`, and `QueueRuns.BadWordBreaksCounters` is a run that breaks it.
- `release_job` requeues without looking at the attempts, so a job may be leased more than `max_attempts`
  times, once more for each release (`QueueRuns.LeasesAreBounded`), and without any bound
  (`QueueRuns.LeasesAreUnbounded`).
- `get_log_tail` drops a row, or the end of one, at a character that no longer fits its scan budget and
  continues with older rows without raising its flag. `LogTail.ScanIsCompleteIff` says exactly when the scan
  is complete, `LogTail.FlagStaysDownIff` exactly when a cut goes unreported, and `LogTail.TailCanSkipARow`
  gives such a log for every budget.
- The paged reader loses text exactly when a character is wider than the whole byte budget; empty rows do
  not stop it, because the first row the query selects always holds the character at the cursor.
- A reviewed scope expansion whose path contains `*`, `?` or `[` is stored and then read as a pattern. `*`
  and `?` match themselves, but a path such as `[id]` is not covered by its own declaration, and the same
  review is demanded again. A review settles the matter exactly when its paths cover one another
  (`ScopeReview.ReviewSettlesIff`, `ScopeReview.BracketPathIsNotCovered`).
- The two ancestry checks of the fresh base-sync identity are implied by the merge-base check, and the
  coherence check of the pinned-base advance can never fail (`BaseSync.FreshIdentityIsExact`,
  `DriftRecovery.CoherenceNeverRejects`).
- Without the ancestry of the old base, a base-changed path may escape review; the escape is exactly
  characterised (`BaseSync.WithoutAncestryReviewIff`).
- `mark_committed` and `mark_failed_terminal` do not check who holds the claim, so a first claimant that is
  only slow can end the second claimant's execution (`PreparedWrites.LateCommitHitsNewHolder`). A commit
  lands on its own claim exactly when no recovery released it (`PreparedWrites.CommitLandsIff`).
- `claim_for_write` returns the value its caller takes for a grant also when the row was taken before its
  update and released before its second read (`PreparedWrites.LostRaceLooksGrantedIff`).
- Startup recovery lists at most 1000 pending Requests; those behind them are not scheduled
  (`RequestDispatch.Scheduler.RecoverPending`).
- The finalizer attempts the full-CI evidence sync in every mode, and the sync asks for the full profile, so
  a fast run never reaches `passed` (`ConvergenceDriver.FastIsNotFull`, `ConvergenceDriver.ConvergeCi`). The
  analysis that decides is that of the caller's snapshot unless evidence had to be recorded, so a stale
  caller can pass a run whose analysis is no longer ready (`ConvergenceDriver.StaleReadinessPasses`).
- A stale transition, binding or evidence record is replayed once, and lost for good exactly when another caller
  changes the row between the re-read and the retry (`ConvergenceReplay.TransitionIfNeeded`). A lost binding is
  treated like any other store error and ends the run as failed, so two lost races are enough to fail a
  healthy run (`ConvergenceDriver.ConvergeCi`).
- `renew_lease` reads the clock before it takes the lock, so a renewal that waited revives a lease that has
  expired meanwhile (`QueueRuns.OverEndsIff`).

## Model

| member | source | states |
|---|---|---|
| `QueueSafety.CallIsExactIff` | services/github-action-service/app/ci_database.py:1004-1035 | a fenced worker callback keeps both counters equal to the true numbers of queued and active jobs if and only if the status word it reports is of the right class; the code does not check the word |
| `QueueRuns.BadWordBreaksCounters` | services/github-action-service/app/ci_database.py:1004-1035 | one bad word is enough: from the empty queue, create, lease and complete as running leaves the counters wrong |
| `QueueSafety.PutIsExactIff` | services/github-action-service/app/ci_database.py:953-974 | a one-row write keeps the counters exact if and only if the booked deltas are the true ones; then the clamp at zero never changes a value |
| `QueueSafety.SupersedeKeepsExact` | services/github-action-service/app/ci_database.py:465-514 | superseding any set of queued jobs keeps the counters exact and never takes more than is there |
| `QueueSafety.RecoverKeepsExact` | services/github-action-service/app/ci_database.py:353-371 | recovering any set of active jobs, some back to the queue and some to the end, keeps every repository's counters exact without the clamp |
| `QueueSafety.CreateKeepsExact` | services/github-action-service/app/ci_database.py:465-522 | creation with or without supersede keeps the counters exact |
| `QueueSafety.LeaseKeepsExact` | services/github-action-service/app/ci_database.py:916-932 | a lease moves exactly one job from queued to running |
| `QueueSafety.CleanupKeepsExact` | services/github-action-service/app/ci_database.py:1768-1776 | clean-up deletes only rows that no counter counts |
| `QueueSafety.NextKeepsInv` | services/github-action-service/app/ci_database.py:870-1259 | every transaction keeps exact counters, distinct lease tokens, the lease shape (worker, token and expiry held exactly while active), the attempt bound and valid logs |
| `QueueRuns.InvHoldsAlways` | services/github-action-service/app/ci_database.py:870-1259 | all of that in every reachable state of every run of well-reported actions |
| `QueueRuns.StaleTokenIsInert` | services/github-action-service/app/ci_database.py:981-1001 | once an attempt's token is replaced, cleared or expired at time t, no later renewal or callback that reads the clock at t or later changes anything, whatever happened in between, provided the renewals with this token among it have read t or later; no other clock reading matters |
| `QueueRuns.OverEndsIff` | services/github-action-service/app/ci_database.py:1132-1148 | exactly when an attempt that was over is not any more: a renewal with its token read the clock before the expiry, which the source does before it takes the lock |
| `QueueRuns.GoneTokenIsInert` | services/github-action-service/app/ci_database.py:981-1001 | for a replaced or cleared token this holds whatever times the calls have read and in whatever order |
| `QueueRuns.FreshLeasePasses` | services/github-action-service/app/ci_database.py:916-922 | the holder of a fresh lease does pass the fence until the expiry |
| `QueueRuns.EndedAttemptIsOver` | services/github-action-service/app/ci_database.py:1105-1125 | release, completion and both recoveries end the attempt's token at once |
| `QueueRuns.TerminalIsForEver` | services/github-action-service/app/ci_database.py:981-1212 | a terminal job never changes again in any column, until clean-up |
| `QueueRuns.LeasesAreBounded` | services/github-action-service/app/ci_database.py:1176-1191 | over any run a job's attempts are its leases, one for each loss and voluntary release and one more while it is active; so it is leased at most max_attempts times plus its releases, and max_attempts losses end it in worker_lost |
| `QueueRuns.LeasesAreUnbounded` | services/github-action-service/app/ci_database.py:1105-1125 | for every n a run from the empty queue leases one job n times, since releases do not count |
| `QueueRuns.WorkerLimitHolds` | services/github-action-service/app/ci_database.py:878-885 | a worker that leases with its own fixed limit never owns more active jobs than that |
| `QueueRuns.OneLiveJobPerKey` | services/github-action-service/app/ci_database.py:435-461 | unless a rerun is forced, at most one queued, active or passed job exists per idempotency key in every reachable state |
| `QueueFairness.NoStarvation` | services/github-action-service/app/ci_database.py:892-921 | while a repository keeps a job waiting at the highest takeable priority, at most N-1 leases that could have taken it go to the other repositories, whatever else interleaves |
| `QueueFairness.PickIsNotLater` | services/github-action-service/app/ci_database.py:892-901 | a lease that passes a waiting repository over goes to one dispatched no later |
| `QueueFairness.OnlyLeasesDispatch` | services/github-action-service/app/ci_database.py:953-974 | only a lease moves last_dispatched_at, and only of its own repository |
| `QueueRows.PickIsFirstInLine` | services/github-action-service/app/ci_database.py:892-905 | the row a lease takes: no queued job of the asked profiles has a higher priority, none of equal priority belongs to a repository dispatched earlier, and none equal in both was created earlier |
| `QueueRows.OldestIsLeasedFirst` | services/github-action-service/app/ci_database.py:892-921 | over any run, while a job waits, every lease that could have taken it and goes to its repository and priority takes a job created no later |
| `QueueRows.HolderRenews` | services/github-action-service/app/ci_database.py:1132-1148 | a renewal extends the lease by 120 s exactly for the token, and if named the worker, of an active unexpired attempt, and changes nothing else |
| `QueueRows.RenewingKeepsTheLease` | services/github-action-service/app/ci_database.py:1132-1148 | a worker that renews before each deadline passes the fence until 120 s after its last renewal, and the job is otherwise untouched |
| `QueueRows.CreationInRows` | services/github-action-service/app/ci_database.py:426-522 | creation changes nothing where a queued, active or passed job has the key or the id is taken; else it inserts one fresh row and, where asked, supersedes exactly the queued jobs of another key with the same repository, branch and profile |
| `QueueRows.AtMostOneServes` | services/github-action-service/app/ci_database.py:435-461 | from the empty tables and without forced reruns no two jobs that wait, are in work or have passed share a key |
| `QueueRows.RecoveryInRows` | services/github-action-service/app/ci_database.py:353-371 | a recovered job loses worker, token and expiry and is queued again while it has attempts left, else lost; every other row stays |
| `RequestSafety.StepMovesRow` | services/github-action-service/app/ci_request_store.py:41-71 | every transaction keeps a Request's history or appends one legal event with the next revision |
| `RequestSafety.HistoriesAlways` | services/github-action-service/app/ci_request_store.py:512-538 | in every reachable state the events number 0..revision without a gap, chain from state to state, and end in the row's state |
| `RequestSafety.RequestOnlyAdvances` | services/github-action-service/app/ci_request_store.py:554-656 | over any run events are only appended, the phase rank never falls even when the job is requeued, and a terminal state is permanent |
| `RequestSafety.IdentityIsForEver` | services/github-action-service/app/ci_request_store.py:272-346 | one Request per idempotency key in every reachable state, and a Request keeps its identity and payload for life, its tree being pinned at most once |
| `RequestSafety.StepKeepsIdentity` | services/github-action-service/app/ci_request_store.py:488-538 | no transaction changes a Request's identity; dispatch pins an open tree and refuses another |
| `DispatchSafety.TransactKeepsInv` | services/github-action-service/app/ci_request_store.py:453-551 | every step of any number of concurrent, stale or crashed dispatchers keeps the binding and the projection |
| `DispatchSafety.ExactlyOneJob` | services/github-action-service/app/ci_request_store.py:453-551 | a Request has no Worker Job before it is queued and none if preflight failed; afterwards exactly one, the one it is bound to |
| `DispatchSafety.BindingIsForEver` | services/github-action-service/app/ci_request_store.py:524-538 | a binding is never replaced or taken back |
| `DispatchSafety.PassIsSound` | services/github-action-service/app/ci_request_store.py:806-882 | a passed Request has a job that passed with exit code 0, the same repository, branch, commit and profile, and a reported tree equal to the pinned one |
| `DispatchSafety.EndedJobIsFrozen` | services/github-action-service/app/ci_request_store.py:806-882 | the terminal job behind a Request never changes in later runs |
| `DispatchSafety.RepairIsComplete` | services/github-action-service/app/ci_request_store.py:885-893 | after startup repair a dispatched Request is terminal if and only if its job is terminal with matching evidence, with the job's own status, superseded and lost jobs included |
| `DispatchSafety.RepairIsIdempotent` | services/github-action-service/app/ci_request_store.py:885-893 | a second pass at the same clock changes nothing, from any state |
| `RequestRows.LegalIsAllowed` | services/github-action-service/app/ci_request_store.py:41-71 | the transition table in the words of the status column |
| `RequestRows.ProvesIsEvidence` | services/github-action-service/app/ci_request_store.py:826-846 | a job is evidence exactly when repository, branch, commit and profile agree, the tree is pinned, no other tree was reported, and a pass has exit code 0 and this very tree |
| `RequestRows.MatchingInRows` | services/github-action-service/app/ci_request_store.py:785-803 | the attestation linked is the newest for this job and identity that is active and unexpired, or none |
| `RequestRows.ProjectionFollows` | services/github-action-service/app/ci_request_store.py:806-882 | a queued or running Request whose job has ended with matching evidence ends in the job's own status word with its newest attestation; one whose job runs is running; nothing else moves it |
| `RequestRows.ReconcileInRows` | services/github-action-service/app/ci_request_store.py:806-882 | reconciling a set of jobs makes exactly the Requests bound to them follow |
| `RequestRows.RepairInRows` | services/github-action-service/app/ci_request_store.py:885-893 | startup repair lets every live Request follow its job and links every passed one without attestation to the newest certified one, and touches no other row |
| `RequestFollowing.StepKeepsUp` | services/github-action-service/app/ci_request_store.py:806-893 | every transaction leaves each dispatched Request level with its job, those of superseded jobs and of jobs lost in a worker restart excepted |
| `RequestFollowing.RequestsFollowTheirJobs` | services/github-action-service/app/ci_database.py:1004-1234 | in every reachable state of well-reported runs a Request whose job has ended and proves it has ended too, unless the job was superseded or in work at a restarted worker; and one whose job runs is running or has ended |
| `BulkWrites.PickExists` | services/github-action-service/app/ci_database.py:892-905 | the scheduling query returns a row exactly when some row is takeable |
| `BulkWrites.RecoverOneMore` | services/github-action-service/app/ci_database.py:353-371 | recovering row by row adds up to recovering the set, counters included |
| `BulkWrites.SupersedeOneMore` | services/github-action-service/app/ci_database.py:474-491 | superseding row by row adds up to superseding the set |
| `BulkWrites.ReconcileOneMore` | services/github-action-service/app/ci_database.py:1175-1206 | writing and reconciling row by row is writing all rows and reconciling all of them |
| `BulkWrites.RepairIsReconcile` | services/github-action-service/app/ci_request_store.py:885-893 | startup repair is reconciliation of the bound jobs, given the unique binding index |
| `CiDatabase.Database.UpsertRepoQueueState` | services/github-action-service/app/ci_database.py:953-974 | the conditional counter update is the clamped update of the specification |
| `CiDatabase.Database.LeaseJob` | services/github-action-service/app/ci_database.py:870-932 | nothing is leased exactly when no profile is asked, the worker holds its limit or no asked job is queued; else the first job by priority, last dispatch of its repository and creation time gets worker, token and 120 s, and its repository is marked dispatched now |
| `CiDatabase.Database.RenewLease` | services/github-action-service/app/ci_database.py:1132-1148 | true exactly for the token, and if named the worker, of an active unexpired attempt; then only the expiry changes, to 120 s from the clock read |
| `CiDatabase.Database.CompleteJob` | services/github-action-service/app/ci_database.py:1004-1046 | under the fence the job stores word, exit code and tree and is freed, and in the same step every Request bound to it follows it; a stale caller changes nothing |
| `CiDatabase.Database.ReleaseJob` | services/github-action-service/app/ci_database.py:1105-1129 | release is one step of the system, or nothing when the lease is stale |
| `CiDatabase.Database.SetJobStatus` | services/github-action-service/app/ci_database.py:1215-1234 | accepted exactly under the fence and, for running, from downloading or preparing; then the Requests bound to the job follow it if it runs |
| `CiDatabase.Database.SetJobSourceDownloaded` | services/github-action-service/app/ci_database.py:1244-1259 | source evidence and downloading state are one step |
| `CiDatabase.Database.AppendLogChunk` | services/github-action-service/app/ci_database.py:1263-1289 | the appended row and the returned end offset |
| `CiDatabase.Database.AppendLogBatch` | services/github-action-service/app/ci_database.py:1292-1335 | a repeated batch changes nothing and reports the known offset |
| `CiDatabase.Database.AddStepRow` | services/github-action-service/app/ci_database.py:1547-1578 | a new step starts as an empty range at the current end of the log |
| `CiDatabase.Database.FinishStepRow` | services/github-action-service/app/ci_database.py:1581-1639 | accepted exactly under the fence for a step of that job; the end stored is the supplied one, or the log's, moved into the range from the start of the step to the log's end |
| `CiDatabase.Database.RequestCancelJob` | services/github-action-service/app/ci_database.py:1055-1071 | the result is true exactly when the row changed |
| `CiDatabase.Database.CancelQueuedJob` | services/github-action-service/app/ci_database.py:1074-1102 | exactly a queued job is cancelled and freed, and the Requests bound to it follow in the same step |
| `CiDatabase.Database.RecoverWorkerJobs` | services/github-action-service/app/ci_database.py:342-384 | exactly the active jobs of the worker are requeued or lost, no Request is touched, and the result is their number |
| `CiDatabase.Database.RecoverExpiredLeases` | services/github-action-service/app/ci_database.py:1164-1212 | exactly the active jobs whose lease has expired are requeued or lost, the Requests bound to them follow, and the result is their number |
| `CiDatabase.Database.CreateOrGetJob` | services/github-action-service/app/ci_database.py:426-522 | the newest job of the key that is queued, active or passed is returned unless a rerun is forced; else one fresh row is inserted and the waiting jobs it replaces are superseded; a taken id rolls everything back |
| `CiDatabase.Database.CleanupOldJobs` | services/github-action-service/app/ci_database.py:1768-1776 | deletes finished rows and clears the references to them |
| `CiDatabase.Database.ReconcileWorkerRequest` | services/github-action-service/app/ci_request_store.py:806-882 | the branch-by-branch reconciler is the projection, and reports a change exactly when the tables changed |
| `CiDatabase.Database.NewestAttestation` | services/github-action-service/app/ci_request_store.py:785-803 | finds the newest active matching attestation |
| `CiDatabase.Database.ReconcilePendingWorkerRequests` | services/github-action-service/app/ci_request_store.py:885-893 | the loop is the repair step: exactly the live Requests and the passed ones without attestation follow their jobs, and the result is the number that moved |
| `CiDatabase.Database.CreateOrGetCiRequest` | services/github-action-service/app/ci_request_store.py:272-373 | one accepted row per idempotency key; every other outcome leaves the tables alone |
| `CiDatabase.Database.TransitionCiRequest` | services/github-action-service/app/ci_request_store.py:554-665 | the compare-and-swap with all its refusals is one step of the system |
| `CiDatabase.Database.CreateCiRequestJob` | services/github-action-service/app/ci_database.py:547-564 | creates or reuses the Request's job and checks its identity, or restores the tables |
| `CiDatabase.Database.DispatchCiRequest` | services/github-action-service/app/ci_request_store.py:453-551 | accepted exactly for a preparing row of that revision with payload, a well-formed tree that is no other than the pinned one, and a fitting unclaimed job; then job, binding, tree, revision and event are one step, and any refusal rolls all of it back |
| `CiDatabase.Database.ListPendingCiRequests` | services/github-action-service/app/ci_request_store.py:442-450 | the first pending Requests by creation time and id, as many as there are up to the limit of at most 1000 |
| `PendingRequests.PageHolds` | services/github-action-service/app/ci_request_store.py:442-450 | a pending Request is listed if and only if fewer than the limit come before it |
| `PendingRequests.PageInRows` | services/github-action-service/app/ci_request_store.py:442-450 | the listed rows are accepted or preparing and sorted by creation time, none older is left out, and the clamp is 1 to 1000 |
| `PendingRequests.PageHoldsAllIff` | services/github-action-service/app/ci_request_store.py:442-450 | every pending Request is listed if and only if there are no more than the limit |
| `PendingRequests.PageIsUnique` | services/github-action-service/app/ci_request_store.py:442-450 | tables and limit fix the listing, ties in creation time included |
| `RequestDispatch.BeginPreparing` | services/github-action-service/app/ci_request_dispatch.py:188-205 | accepted becomes preparing by a step the safety theorems cover |
| `RequestDispatch.FinishPreparing` | services/github-action-service/app/ci_request_dispatch.py:207-238 | a stale snapshot changes nothing; a current one ends in preflight_failed or, exactly when dispatch accepts it, in queued |
| `RequestDispatch.ProcessCiRequest` | services/github-action-service/app/ci_request_dispatch.py:188-238 | run alone, a failed preflight always ends in preflight_failed without a job, and every write is a dispatcher step |
| `RequestDispatch.Scheduler.Schedule` | services/github-action-service/app/ci_request_dispatch.py:268-276 | an id waits or is processed at most once |
| `RequestDispatch.Scheduler.RecoverPending` | services/github-action-service/app/ci_request_dispatch.py:279-285 | a pending Request is scheduled afterwards if and only if it was before or fewer than the limit are ahead of it, new ones oldest first and each once; from an empty scheduler all are if and only if there are no more than the limit |
| `Utf8.RoundTrip` | services/github-action-service/app/ci_database.py:1338-1345 | decoding inverts encoding for every text |
| `Utf8.Prefix` | services/github-action-service/app/ci_database.py:1338-1345 | cutting the encoded bytes and decoding yields the longest prefix that fits the byte budget (sections 3 and 4 of RFC 3629) |
| `Utf8.DecodeOfCutEncoding` | services/github-action-service/app/ci_database.py:1338-1345 | decoding a cut encoding loses only the character that was cut |
| `LogStore.StoredTextIsAcceptedText` | services/github-action-service/app/ci_database.py:1263-1335 | after any appends, repeated batches and steps the stored text is the accepted contents in order, the total is its length, and every step range lies inside it |
| `LogStore.StepReadsBackItsText` | services/github-action-service/app/ci_database.py:1547-1639 | a step finished once with an end inside the log, or with none, reads back, for ever after, exactly the text accepted between its start and that end |
| `LogStore.FinishedStepEndsAt` | services/github-action-service/app/ci_database.py:1608-1626 | a supplied end inside the range is stored as it is, a smaller one becomes the start of the step and a larger one the end of the log; without one the end of the log is stored; no other step changes |
| `LogPages.GetLogChunks` | services/github-action-service/app/ci_database.py:1402-1510 | a page is a piece of the plain text within row and byte limits, its cursor is exact, it promises more exactly when it moved and text is left, and the length it reports is that of the range when both ends are given, else of the log |
| `LogPages.ReadRange` | services/github-action-service/app/ci_mcp.py:1145-1176 | following next_offset terminates and yields the range up to the first character that no page can carry |
| `LogPages.PagingIsSlicing` | services/github-action-service/app/ci_database.py:1402-1510 | the pages concatenate to the slice if and only if every character of it fits the budget; a budget of 4 always does |
| `LogTail.GetLogTail` | services/github-action-service/app/ci_database.py:1513-1543 | the batched backwards scan with its cursor is the row-by-row scan of the specification |
| `LogTail.TailIsPacked` | services/github-action-service/app/ci_database.py:1513-1543 | every field of the tail in terms of the log: the newest rows are packed into the clamped budget until there are enough line ends or no room; lines, bytes scanned, and both flags are those of that packing |
| `LogTail.SplitUndoesJoin` | services/github-action-service/app/ci_database.py:1539-1541 | splitting undoes joining with any of the ten line ends or a return and newline, for lines that hold none of the ten |
| `LogTail.ScanIsCompleteIff` | services/github-action-service/app/ci_database.py:1513-1543 | for a log of any size the scan ends complete and uncut if and only if some suffix of whole rows fits the budget and is the whole log or holds more than n line ends |
| `LogTail.TailIsLastLines` | services/github-action-service/app/ci_database.py:1513-1543 | then the tail is the last n lines of the full text, for every log, chunking, n and budget |
| `LogTail.TailOfFittingLog` | services/github-action-service/app/ci_database.py:1513-1543 | in particular whenever the whole log fits the budget |
| `LogTail.FlagStaysDownIff` | services/github-action-service/app/ci_database.py:1525-1542 | exactly when max_bytes_reached stays down, and exactly when it stays down although text was cut |
| `LogTail.CutIsAtWideChar` | services/github-action-service/app/ci_database.py:1530-1535 | an unreported cut is at a character wider than the room left, which is then at most three bytes |
| `LogTail.OneByteLogsReportCuts` | services/github-action-service/app/ci_database.py:1513-1543 | a log of one-byte characters either gives its last n lines or reports the cut |
| `LogTail.TailCanSkipARow` | services/github-action-service/app/ci_database.py:1513-1543 | at every scan budget from two bytes up there is a log whose tail leaves out a row in its middle while the flag for the cut stays down |
| `LogTail.VisitSkipsWideRow` | services/github-action-service/app/ci_database.py:1525-1540 | a row whose first character is wider than what is left of the budget is skipped and the scan goes on |
| `StepMerge.MergeFullSteps` | services/github-action-service/app/ci_mcp.py:217-245 | the queue-popping merge pairs steps by name and occurrence number, keeps every summary step in its place, takes times and log offsets from the row, and status, exit code and duration from the row only where the summary has none, and appends what is left |
| `StepMerge.PartnerIff` | services/github-action-service/app/ci_mcp.py:229-232 | a row is merged into a summary step if and only if name and occurrence number agree |
| `StepMerge.EachRowOnce` | services/github-action-service/app/ci_mcp.py:217-245 | every persisted row is merged into exactly one summary step or left over, never both |
| `StepMerge.LeftOversInOrder` | services/github-action-service/app/ci_mcp.py:241-243 | the rows left over are appended in their own order, each once |
| `GitGraph.AnswersAreCoherent` | services/github-action-service/app/development_base_sync_recovery.py:150-163 | a true comparison has zero or positive counts exactly as its merge base says, and its merge base is the base exactly for an ancestor |
| `GitGraph.TrueAnswerExists` | services/github-action-service/app/development_base_sync_recovery.py:150-163 | two related commits always have a true answer |
| `DriftRecovery.CompareDeltaIsExact` | services/github-action-service/app/development_base_sync_recovery.py:138-195 | a forward comparison is accepted exactly for a bounded ancestor (strict where required), with exactly the differing paths |
| `DriftRecovery.ClassificationIsExact` | services/github-action-service/app/development_base_sync_recovery.py:138-195 | a classification-only comparison accepts every bounded answer, measured from the merge base |
| `DriftRecovery.CoherenceNeverRejects` | services/github-action-service/app/development_drift_recovery.py:262-283 | the coherence check never rejects a real history |
| `DriftRecovery.PinnedBaseIsExact` | services/github-action-service/app/development_drift_recovery.py:186-315 | accepted if and only if the pins agree and the pin is live, or is a strict ancestor of live and the comparisons stay below the limit |
| `DriftRecovery.PinnedBaseBelowLimit` | services/github-action-service/app/development_drift_recovery.py:186-315 | below the file limit: accepted if and only if the pin is live, or is a strict ancestor of live sharing an ancestor with HEAD |
| `DriftRecovery.PinEvidenceIsReal` | services/github-action-service/app/development_drift_recovery.py:286-315 | the reported path lists are the tree differences from a merge base that is an ancestor of all three commits |
| `DriftRecovery.ForwardOnlyIsExact` | services/github-action-service/app/development_drift_recovery.py:371-420 | accepted if and only if the tree matches and the new HEAD is a bounded strict descendant, with exactly the changed paths |
| `ScopeReview.ReviewSettlesIff` | services/github-action-service/app/development_drift_recovery.py:448-486 | after an accepted review the resulting scope covers every changed path, and asks for no further review, if and only if each reviewed path is covered by some reviewed path read as a declaration |
| `ScopeReview.CoversItselfIff` | services/github-action-service/app/mygithub12_workspace.py:28-39 | a path without surrounding blanks and slashes covers itself if and only if it has no square bracket or matches itself as a pattern |
| `ScopeReview.BracketNameIsNoMatch` | services/github-action-service/app/mygithub12_workspace.py:28-39 | the matcher reads a name in square brackets as a class of letters, so the name is no match for itself |
| `ScopeReview.PlainReviewSettles` | services/github-action-service/app/development_drift_recovery.py:448-486 | so a review of paths without square brackets always settles the matter |
| `ScopeReview.UncoveredReviewRepeats` | services/github-action-service/app/development_drift_recovery.py:448-486 | a reviewed path that does not cover itself is accepted and refused again at the next check |
| `ScopeReview.BracketPathIsNotCovered` | services/github-action-service/app/mygithub12_workspace.py:28-39 | so the review of such a name is accepted and demanded again |
| `ScopeReview.CoverageIsExact` | services/github-action-service/app/mygithub12_workspace.py:28-39 | a declaration without a magic character covers the path it names and what lies below it behind a slash, and nothing else |
| `ScopeReview.StripIs` | services/github-action-service/app/mygithub12_workspace.py:30-31 | blanks around a path, and slashes inside them, do not count |
| `ScopeReview.StarIsExact` | services/github-action-service/app/mygithub12_workspace.py:34-38 | a star in a declaration stands for any text, slashes included |
| `BaseSync.FreshIdentityIsExact` | services/github-action-service/app/development_base_sync_recovery.py:246-392 | accepted if and only if the selected base is live, or two readings agree and it is the merge base of task and live base; both ancestry checks follow |
| `BaseSync.DeltasAreExact` | services/github-action-service/app/development_base_sync_recovery.py:395-535 | accepted if and only if the relations hold, the review is exactly the overlap and, ancestry-backed, every base-changed path the branch left alone was really taken over |
| `BaseSync.ReviewIsSound` | services/github-action-service/app/development_base_sync_recovery.py:422-535 | ancestry-backed, every base-changed path outside the forward delta was reviewed; every imported path carries the new base's blob or was reviewed |
| `BaseSync.WithoutAncestryReviewIff` | services/github-action-service/app/development_base_sync_recovery.py:455-493 | without ancestry, exactly which base-changed paths escape review |
| `BaseSync.FastForwardIsAccepted` | services/github-action-service/app/development_base_sync_recovery.py:395-535 | the gate is no wall: moving an unchanged branch straight to its new base needs no review |
| `BaseSync.NothingIsSmuggled` | services/github-action-service/app/development_base_sync_recovery.py:478-535 | whatever changed on the branch is new-base content, reviewed, or handed to the scope check |
| `BaseSync.AdoptionIsSound` | services/github-action-service/app/development_base_sync_recovery.py:569-613 | overlap and scope gates together: every change is new-base content, reviewed, or inside the declared scope |
| `BaseSync.EvidenceInTrees` | services/github-action-service/app/development_base_sync_recovery.py:478-535 | in the blobs of the four trees: which paths are handed to the scope check and which count as imported, in both modes |
| `BaseSync.AdoptionIsExact` | services/github-action-service/app/development_base_sync_recovery.py:569-613 | both gates together accept if and only if the relations hold, the base review is exactly the overlap, every base change the branch left alone was taken over, and the scope review names, each once, exactly the paths outside the declared scope that the new base does not bring |
| `BaseSync.PlainMergeNeedsNoReview` | services/github-action-service/app/development_base_sync_recovery.py:478-613 | a plain merge of the new base into the branch, with no path changed on both sides, is adopted without any review, and the scope check gets no path at all |
| `ConvergenceStore.Store.CreateOrGet` | services/github-action-service/app/development_convergence_store.py:370-518 | one row per key and one active row per identity: a new run with all stages pending, the run that was found, or the refusal of the code with what was found |
| `ConvergenceStore.Store.TransitionConvergence` | services/github-action-service/app/development_convergence_store.py:589-660 | the phase compare-and-swap with its refusals |
| `ConvergenceStore.Store.BindOnce` | services/github-action-service/app/development_convergence_store.py:663-731 | an identity is set once; the same value is a no-op and another is refused |
| `ConvergenceStore.Store.BindCiJob` | services/github-action-service/app/development_convergence_store.py:759-787 | a job is bound only under the Request read at the same revision |
| `ConvergenceStore.Store.RecordAnalysisState` | services/github-action-service/app/development_convergence_store.py:790-861 | an accepted record leaves the named stage with exactly the given row, every other stage and column as it was, and adds a revision and its event; accepted exactly for a live run at the expected revision |
| `ConvergenceStore.Store.RecordTerminalEvidence` | services/github-action-service/app/development_convergence_store.py:864-935 | evidence ids are filled, never changed |
| `Convergence.MoveGrows` | services/github-action-service/app/development_converge.py:690-747 | a transition computed from a stale snapshot takes effect only on the very row it was computed from, and then goes forward |
| `Convergence.BindGrows` | services/github-action-service/app/development_convergence_store.py:663-787 | every binding is a legal growth of the row; a job id implies a Request id |
| `Convergence.NextKeepsInv` | services/github-action-service/app/development_convergence_store.py:589-935 | every step keeps gap-free events, truthful snapshots and both unique indexes |
| `Convergence.InvAlways` | services/github-action-service/app/development_converge.py:690-842 | all of that in every reachable state, for any number of callers with stale snapshots; a full pass has its attestation, since the drivers are proved to take enabled steps only |
| `Convergence.RankIsPlace` | services/github-action-service/app/development_converge.py:51-61 | the rank of a phase is its place in the order of the live phases, and the three ends share the rank behind it |
| `Convergence.RunsOnlyGrow` | services/github-action-service/app/development_converge.py:690-747 | rank never falls, a terminal phase and status are permanent, ids bind at most once, no revision or event is lost |
| `Convergence.EqualRevisionIsEqualRow` | services/github-action-service/app/development_convergence_store.py:279-293 | two snapshots with one revision are the same row |
| `Convergence.CreatedIsPending` | services/github-action-service/app/development_convergence_store.py:466-518 | a run starts with every stage pending |
| `Convergence.StageHoldsLastRecord` | services/github-action-service/app/development_convergence_store.py:790-861 | over any run each stage holds the last row recorded for it, or its first |
| `Convergence.FiveRecordsMakeReady` | services/github-action-service/app/development_convergence_store.py:790-861 | recording the five stages ready, from any live run, makes its analysis ready |
| `CallerTurns.OthersAct` | services/github-action-service/app/development_convergence_store.py:370-935 | any number of calls of other callers, with any arguments, are enabled steps of the system; they leave a row as it was if and only if none of them changed it |
| `CallerTurns.TheirsChangeIff` | services/github-action-service/app/development_convergence_store.py:279-293 | a row once changed by others never comes back, since its revision has grown |
| `CallerTurns.TryTransition` | services/github-action-service/app/development_converge.py:690-733 | one pass: lost exactly when the snapshot is stale and still asks for something |
| `CallerTurns.StaysEnabled` | services/github-action-service/app/development_converge.py:690-842 | a step a driver has chosen stays enabled whatever other callers do before it is taken |
| `ConvergenceReplay.TransitionIfNeeded` | services/github-action-service/app/development_converge.py:690-747 | with others acting after the lost swap and again before the retry: refused if and only if the snapshot was stale, snapshot and re-read row both ask for something, and others changed the row before the retry; otherwise the row returned asks for nothing more, and undisturbed a stale caller ends like a fresh one |
| `ConvergenceReplay.RecordEvidenceIfNeeded` | services/github-action-service/app/development_converge.py:813-842 | lost for good if and only if the snapshot was stale, the re-read row lacks the evidence and others changed it before the retry; else refused exactly when the row holds other evidence, and on success the attestation is the bound one |
| `ConvergenceReplay.BindWithReplay` | services/github-action-service/app/development_converge.py:750-763 | lost for good if and only if the snapshot was stale and others changed the row before the retry; a binding that succeeds is on the row, and undisturbed any binding, a job under its Request included, is decided on the current row |
| `ConvergenceDriver.FinalizeCiState` | services/github-action-service/app/development_converge.py:1556-1685 | whatever others do between its steps, passed is asked for only with complete evidence and a ready analysis that was read; undisturbed, from any snapshot, a live run is passed if and only if the Request passed, its evidence can be recorded, the evidence sync accepts it and the analysis looked at is ready, and failed if and only if the Request ended otherwise and its failure pack is no other |
| `ConvergenceDriver.CompleteIsProven` | services/github-action-service/app/development_converge.py:1443-1553 | the evidence a run needs to pass, column by column: passed Request with job and attestation, the Session's identity, a passed job with exit code 0 and this tree, a reusable certificate for it, and the Session linked to both |
| `ConvergenceDriver.StaleReadinessPasses` | services/github-action-service/app/development_converge.py:1641-1685 | whenever a live run with its evidence recorded is about to pass, another caller can take back the readiness of a stage and the first caller's snapshot passes the run all the same |
| `ConvergenceDriver.FastIsNotFull` | services/github-action-service/app/development_converge.py:863-893 | a Request that fits a fast run never satisfies the evidence sync, which asks for the full profile in every mode |
| `ConvergenceDriver.AdvanceCiTrack` | services/github-action-service/app/development_converge.py:1031-1091 | whatever others do, a run gets through only with a Request that fits it and that Request's job bound; undisturbed and from a current snapshot it gets through, or demands recovery, exactly under the stated conditions |
| `ConvergenceDriver.ConvergeCi` | services/github-action-service/app/development_converge.py:1866-1942 | whatever others do, passed is asked for only for a full run whose Request, Worker Job, attestation and Session agree, and a refused track ends the run; undisturbed and from a current snapshot exactly the runs that fit the track and may pass are passed, and exactly those are blocked whose Request or job differs |
| `PreparedWrites.PreparedStore.CleanupExpired` | services/github-action-service/app/development_change_set_store.py:114-133 | expires exactly the prepared and finished rows past their expiry, keeps all their other columns, and counts them |
| `PreparedWrites.PreparedStore.ReplayWrite` | services/github-action-service/app/development_change_set_store.py:443-482 | each answer exactly for its rows: nothing to replay for an unexpired prepared row, the stored result for the holder of a committed one, and the refusals by expiry, fingerprint, execution and key; the sweep runs exactly where an expired prepared row was met |
| `PreparedWrites.PreparedStore.ClaimForWrite` | services/github-action-service/app/development_change_set_store.py:485-518 | granted exactly on a prepared row that is unexpired at both clock readings, which then executes under this key and fingerprint since the second; no other row starts to execute |
| `PreparedWrites.PreparedStore.RecoverExecutingWrite` | services/github-action-service/app/development_change_set_store.py:328-440 | for the holder: released exactly without a durable operation after more than 300 s, resumed exactly from a verified operation with its result, still running while younger, else to be recovered by hand; refused for others |
| `PreparedWrites.PreparedStore.MarkCommitted` | services/github-action-service/app/development_change_set_store.py:521-572 | an executing row keeps its holder and stores the result without the six locator keys; any other row is left alone |
| `PreparedWrites.SecondGrantNeedsRelease` | services/github-action-service/app/development_change_set_store.py:363-389 | a second grant comes only after a recovery released that very claim, older than 300 s and without a durable operation |
| `PreparedWrites.CommittedIsForEver` | services/github-action-service/app/development_change_set_store.py:535-572 | a committed result and its key never change, and the row stays committed until a sweep at or after expiry |
| `PreparedWrites.ReplaysReturnTheCommit` | services/github-action-service/app/development_change_set_store.py:443-482 | the holder's replays return the stripped result; another fingerprint is a conflict, another key is refused |
| `PreparedWrites.ClaimSurvivesIff` | services/github-action-service/app/development_change_set_store.py:328-440 | an id that executes before and after a run executes under the same claim if and only if no recovery released it |
| `PreparedWrites.CommitLandsIff` | services/github-action-service/app/development_change_set_store.py:535-572 | a commit lands on the claim it was made under if and only if no recovery released that claim before |
| `PreparedWrites.LateCommitHitsNewHolder` | services/github-action-service/app/development_change_set_store.py:535-572 | marking is not tied to the claim: a run in which a slow first claimant commits the second one's execution |
| `PreparedWrites.AloneIsAtomic` | services/github-action-service/app/development_change_set_store.py:485-518 | with no other call in between, the claim in three transactions answers like ClaimForWrite and holds the id exactly when it is granted |
| `PreparedWrites.LostRaceLooksGrantedIff` | services/github-action-service/app/development_change_set_store.py:485-518 | with other calls between its three transactions a claim is told granted without holding the id if and only if another caller took it before the update, that execution was released before the second read, nobody took it since, and it has not expired |
| `LocationParser.ParseLocationToken` | services/github-action-service/app/development_failure_pack.py:361-419 | the colon scan terminates and is the specification's scan |
| `LocationParser.ParseFindsPiece` | services/github-action-service/app/development_failure_pack.py:334-419 | a returned file is a contiguous piece of the token, stripped of trailing punctuation only, directly before the line and column |
| `LocationParser.RoundTripIff` | services/github-action-service/app/development_failure_pack.py:361-419 | parsing inverts printing if and only if the path is supported, does not end in stripped punctuation and holds no boundary before an explicit path |
| `LocationParser.PrintableInCharacters` | services/github-action-service/app/development_failure_pack.py:334-358 | that condition in characters: no URL, no colon but a drive's, no final punctuation, and no boundary before a slash, a dotted path or a drive |
| `LocationParser.PlainPathsRoundTrip` | services/github-action-service/app/development_failure_pack.py:334-419 | in particular for every plain path with at most a drive colon, none of the five boundary characters and no trailing punctuation |

## Left out

- QueueRuns.InvHoldsAlways: assumes that workers report a live phase while running and an outcome when completing; the code does not check this, and CallIsExactIff shows the assumption is necessary.
- RequestFollowing.RequestsFollowTheirJobs: assumes well-reported words as QueueRuns.InvHoldsAlways does, and the same runs as DispatchSafety.ExactlyOneJob; a job completed with a word outside the vocabulary ends no Request.
- DispatchSafety.ExactlyOneJob: runs without clean-up and without transitions made by anyone but the dispatcher, the reconciler and the queue, since clean-up clears the binding and legacy callers may pass any job id.
- DispatchSafety.PassIsSound: same runs; legacy back-filled rows are not part of the initial state.
- Convergence.InvAlways: readiness of the analysis at `passed` is not part of the invariant; ConvergenceDriver.FinalizeCiState says which analysis decides.
- ConvergenceDriver.FinalizeCiState: the registry's verdict on the attestation and the outcome of the Session write are values passed in; which phase a disturbed run ends in is left open, since others may end it first.
- ConvergenceDriver.ConvergeCi: starts after the analysis part of the call; creation of the Request is a value passed in, and the text of an error is a parameter.
- PreparedWrites.SecondGrantNeedsRelease: takes each store call as atomic; LostRaceLooksGrantedIff says what changes without that.
- LocationParser.RoundTripIff: which characters are letters and digits is a parameter; no character with a role in the syntax may be one.
- The unguarded form of the worker callbacks, which passes neither worker id nor token and skips the fence.
- Worker rows (`ci_workers.status`, `current_job_id`), heartbeats and job-change notifications: best-effort pointers that the job rows overrule.
- Job event rows, except the number of releases; timeouts, changed files, durations, error texts and other columns no decision reads.
- The expected-identity argument of `transition_ci_request` and the event payloads.
- Summaries that are not valid JSON objects; the summary is modelled by its tree id.
- `finish_step` called by step id alone; step times and durations.
- Legacy back-fill and schema repair at start-up; SQLite itself, WAL and thread locks.
- Redaction of log pages and the cursor encoding of the step-log tool; reading is modelled at the database.
- `_merge_steps` and `_redact_sensitive_assignments` of the failure pack: heuristics by status text and key names.
- The step list of the full job view that is built before the merge; it is the first argument of the merge.
- Surrogate code points, which cannot be encoded in UTF-8.
- Symbolic links, submodules and copied files in Git trees; a read failure of a blob, which always rejects.
- `_classify_pinned_base_state`, ownership and overlap advice, lease renewal and the atomic row update of the recoveries: long lists of field equalities.
- Index and analysis callbacks, CI Request creation and response building of the convergence driver.
- GitHub clients, archives, authentication, configuration, dashboards, observability and deployment.
