/**
 The prepared-write gate: one prepared change set may be written to Git once. Every store call is atomic;
 the durable operation rows of the lower level are what a call finds, passed as a parameter.
 */
module PreparedWrites {
  import opened LogStore

  type PreparedId = string
  type Time = real
  type Json = map<string, string>

  const EXECUTION_STALE_SECONDS: Time := 300.0
  const UNSAFE: set<string> := {"diff_preview", "patch", "content", "change_set_json", "download_url", "storage_locator"}

  datatype Status = Ready | Executing | Committed | FailedTerminal | Expired

  /** One row of prepared_change_sets; the execution columns are empty unless a claim set them. */
  datatype Row = Row(
    status: Status, createdAt: Time, expiresAt: Time,
    key: Option<string>, fingerprint: Option<string>, executingAt: Option<Time>,
    result: Option<Json>, failure: Option<string>)

  type Rows = map<PreparedId, Row>

  /** The lower level's idempotency row for a key. */
  datatype OperationStatus = InProgress | Running | GitVerified | SuccessVerified | Other
  datatype Operation = Operation(id: string, status: OperationStatus, result: Option<Json>)

  datatype Outcome =
    | Granted | NothingToReplay | Replayed(result: Json)
    | NotFound | IsExpired | Conflict | StillRunning | AlreadyConsumed
    | NotExecuting | Released | Resume(operation: string, finished: bool, result: Json) | RecoveryRequired

  /** _safe_result. */
  function Safe(result: Json): Json { result - UNSAFE }

  /** cleanup_expired. */
  function Swept(rows: Rows, now: Time): Rows {
    map p | p in rows ::
      if (rows[p].status.Ready? || rows[p].status.Committed? || rows[p].status.FailedTerminal?) && rows[p].expiresAt <= now
      then rows[p].(status := Expired) else rows[p]
  }

  function Prepare(rows: Rows, p: PreparedId, now: Time, ttl: Time): Rows {
    if p in rows then rows else rows[p := Row(Ready, now, now + ttl, None, None, None, None, None)]
  }

  function ReplayOutcome(rows: Rows, p: PreparedId, key: string, fingerprint: string, now: Time): Outcome {
    if p !in rows then NotFound
    else
      var row := rows[p];
      var sameKey := row.key == Some(key);
      if row.status.Ready? then if row.expiresAt <= now then IsExpired else NothingToReplay
      else if row.status.Expired? then IsExpired
      else if sameKey && row.fingerprint != Some(fingerprint) then Conflict
      else if sameKey && row.status.Committed? && row.result.Some? then Replayed(row.result.value)
      else if sameKey && row.status.Executing? then StillRunning
      else AlreadyConsumed
  }

  /** replay_write; finding an expired prepared row sweeps the table. */
  function Replay(rows: Rows, p: PreparedId, now: Time): Rows {
    if p in rows && rows[p].status.Ready? && rows[p].expiresAt <= now then Swept(rows, now) else rows
  }

  /** The clock is read for the first replay and again for the update and the second replay. */
  function ClaimOutcome(rows: Rows, p: PreparedId, key: string, fingerprint: string, first: Time, now: Time): Outcome {
    var replay := ReplayOutcome(rows, p, key, fingerprint, first);
    if !replay.NothingToReplay? then replay
    else if p in rows && rows[p].expiresAt > now then Granted
    else ReplayOutcome(rows, p, key, fingerprint, now)
  }

  /** claim_for_write. */
  function Claim(rows: Rows, p: PreparedId, key: string, fingerprint: string, first: Time, now: Time): Rows {
    if ClaimOutcome(rows, p, key, fingerprint, first, now).Granted? && p in rows
    then rows[p := rows[p].(status := Executing, key := Some(key), fingerprint := Some(fingerprint), executingAt := Some(now))]
    else if ReplayOutcome(rows, p, key, fingerprint, first).NothingToReplay? then Replay(rows, p, now)
    else Replay(rows, p, first)
  }

  function Since(row: Row): Time { if row.executingAt.Some? then row.executingAt.value else row.createdAt }

  function Age(row: Row, now: Time): Time { if now - Since(row) < 0.0 then 0.0 else now - Since(row) }

  function RecoverOutcome(rows: Rows, p: PreparedId, key: string, fingerprint: string, op: Option<Operation>,
                          now: Time): Outcome {
    if p !in rows then NotFound
    else
      var row := rows[p];
      if !row.status.Executing? then NotExecuting
      else if row.key != Some(key) then AlreadyConsumed
      else if row.fingerprint != Some(fingerprint) then Conflict
      else if op.None? then if Age(row, now) <= EXECUTION_STALE_SECONDS then StillRunning else Released
      else
        var o := op.value;
        if (o.status.GitVerified? || o.status.SuccessVerified?) && o.result.Some? then Resume(o.id, o.status.SuccessVerified?, o.result.value)
        else if (o.status.InProgress? || o.status.Running?) && Age(row, now) <= EXECUTION_STALE_SECONDS then StillRunning
        else RecoveryRequired
  }

  /** recover_executing_write. */
  function Recover(rows: Rows, p: PreparedId, key: string, fingerprint: string, op: Option<Operation>, now: Time): Rows {
    if RecoverOutcome(rows, p, key, fingerprint, op, now).Released? && p in rows
    then rows[p := rows[p].(status := Ready, key := None, fingerprint := None, executingAt := None)] else rows
  }

  /** mark_committed and mark_failed_terminal touch an executing row, whoever holds it. */
  function Commit(rows: Rows, p: PreparedId, result: Json): Rows {
    if p in rows && rows[p].status.Executing?
    then rows[p := rows[p].(status := Committed, result := Some(Safe(result)))] else rows
  }

  function Fail(rows: Rows, p: PreparedId, code: string): Rows {
    if p in rows && rows[p].status.Executing?
    then rows[p := rows[p].(status := FailedTerminal, failure := Some(code))] else rows
  }

  // ---- The store ----

  /** Every row but p is what it was. */
  predicate OthersStay(before: Rows, after: Rows, p: PreparedId) {
    after.Keys == before.Keys && forall q :: q in before && q != p ==> after[q] == before[q]
  }

  /** The named columns of a row that no lease or result touches. */
  predicate SameTerms(a: Row, b: Row) { a.createdAt == b.createdAt && a.expiresAt == b.expiresAt }

  /** What a sweep leaves: the prepared and finished rows past their expiry are expired, the rest is untouched. */
  ghost predicate SweptAt(before: Rows, after: Rows, now: Time) {
    && after.Keys == before.Keys
    && forall p :: p in before ==>
         if before[p].expiresAt <= now && before[p].status != Executing && before[p].status != Expired
         then after[p].status == Expired && after[p].result == before[p].result && after[p].key == before[p].key
              && after[p].fingerprint == before[p].fingerprint && SameTerms(after[p], before[p])
         else after[p] == before[p]
  }

  /** The keys that never leave the process. */
  predicate IsLocator(key: string) {
    key == "diff_preview" || key == "patch" || key == "content" || key == "change_set_json"
    || key == "download_url" || key == "storage_locator"
  }

  class PreparedStore {
    var rows: Rows

    constructor ()
      ensures rows == map[]
    {
      rows := map[];
    }

    method CreatePrepared(p: PreparedId, now: Time, ttl: Time) returns (ok: bool)
      modifies this
      ensures rows == Prepare(old(rows), p, now, ttl) && (ok <==> p !in old(rows))
      ensures !ok ==> rows == old(rows)
      ensures ok ==> && p in rows && rows[p].status == Ready && rows[p].createdAt == now && rows[p].expiresAt == now + ttl
                     && rows[p].key == None && rows[p].result == None && forall q :: q in old(rows) ==> q in rows && rows[q] == old(rows)[q]
    {
      ok := p !in rows;
      if ok { rows := rows[p := Row(Ready, now, now + ttl, None, None, None, None, None)]; }
    }

    method CleanupExpired(now: Time) returns (count: nat)
      modifies this
      ensures rows == Swept(old(rows), now) && SweptAt(old(rows), rows, now)
      ensures count == |set p | p in old(rows) && old(rows)[p] != rows[p]|
    {
      var stale := set p | p in rows && (rows[p].status.Ready? || rows[p].status.Committed? || rows[p].status.FailedTerminal?)
                           && rows[p].expiresAt <= now;
      count := |stale|;
      rows := map p | p in rows :: if p in stale then rows[p].(status := Expired) else rows[p];
      assert stale == set p | p in old(rows) && old(rows)[p] != rows[p];
    }

    method ReplayWrite(p: PreparedId, key: string, fingerprint: string, now: Time) returns (outcome: Outcome)
      modifies this
      ensures outcome == ReplayOutcome(old(rows), p, key, fingerprint, now) && rows == Replay(old(rows), p, now)
      // in columns: each answer exactly for its rows, and the sweep exactly where an expired prepared row was met
      ensures outcome == NotFound <==> p !in old(rows)
      ensures p in old(rows) ==>
                var row := old(rows)[p];
                var mine := row.key == Some(key) && row.fingerprint == Some(fingerprint);
                && (outcome == NothingToReplay <==> row.status == Ready && row.expiresAt > now)
                && (outcome == IsExpired <==> (row.status == Ready && row.expiresAt <= now) || row.status == Expired)
                && (outcome == Conflict <==>
                      row.status in {Executing, Committed, FailedTerminal} && row.key == Some(key) && row.fingerprint != Some(fingerprint))
                && (outcome.Replayed? <==> row.status == Committed && mine && row.result.Some?)
                && (outcome.Replayed? ==> Some(outcome.result) == row.result)
                && (outcome == StillRunning <==> row.status == Executing && mine)
      ensures p in old(rows) && old(rows)[p].status == Ready && old(rows)[p].expiresAt <= now ==> SweptAt(old(rows), rows, now)
      ensures !(p in old(rows) && old(rows)[p].status == Ready && old(rows)[p].expiresAt <= now) ==> rows == old(rows)
    {
      if p !in rows { return NotFound; }
      var row := rows[p];
      if row.status.Ready? {
        if row.expiresAt <= now {
          var _ := CleanupExpired(now);
          return IsExpired;
        }
        return NothingToReplay;
      }
      if row.status.Expired? { return IsExpired; }
      var sameKey := row.key == Some(key);
      if sameKey && row.fingerprint != Some(fingerprint) { return Conflict; }
      if sameKey && row.status.Committed? && row.result.Some? { return Replayed(row.result.value); }
      if sameKey && row.status.Executing? { return StillRunning; }
      outcome := AlreadyConsumed;
    }

    method ClaimForWrite(p: PreparedId, key: string, fingerprint: string, first: Time, now: Time) returns (outcome: Outcome)
      modifies this
      ensures outcome == ClaimOutcome(old(rows), p, key, fingerprint, first, now)
      ensures rows == Claim(old(rows), p, key, fingerprint, first, now)
      // granted exactly on a prepared row that neither reading of the clock finds expired, and then held under this key
      ensures outcome == Granted <==> p in old(rows) && old(rows)[p].status == Ready && old(rows)[p].expiresAt > first && old(rows)[p].expiresAt > now
      ensures outcome == Granted ==>
                && OthersStay(old(rows), rows, p) && p in rows
                && rows[p].status == Executing && rows[p].key == Some(key) && rows[p].fingerprint == Some(fingerprint)
                && rows[p].executingAt == Some(now) && SameTerms(rows[p], old(rows)[p])
                && rows[p].result == old(rows)[p].result && rows[p].failure == old(rows)[p].failure
      ensures outcome != Granted ==> forall q :: q in rows && rows[q].status == Executing ==> q in old(rows) && rows[q] == old(rows)[q]
    {
      outcome := ReplayWrite(p, key, fingerprint, first);
      if !outcome.NothingToReplay? { return; }
      if rows[p].status.Ready? && rows[p].expiresAt > now {
        rows := rows[p := rows[p].(status := Executing, key := Some(key), fingerprint := Some(fingerprint), executingAt := Some(now))];
        outcome := Granted;
      } else {
        outcome := ReplayWrite(p, key, fingerprint, now);
      }
    }

    method RecoverExecutingWrite(p: PreparedId, key: string, fingerprint: string, op: Option<Operation>, now: Time)
      returns (outcome: Outcome)
      modifies this
      ensures outcome == RecoverOutcome(old(rows), p, key, fingerprint, op, now)
      ensures rows == Recover(old(rows), p, key, fingerprint, op, now)
      // in columns, for a row that executes under this very key: released, resumed, still running or to be recovered by hand
      ensures outcome == NotFound <==> p !in old(rows)
      ensures outcome == NotExecuting <==> p in old(rows) && old(rows)[p].status != Executing
      ensures p in old(rows) && old(rows)[p].status == Executing ==>
                var row := old(rows)[p];
                && (outcome == AlreadyConsumed <==> row.key != Some(key))
                && (outcome == Conflict <==> row.key == Some(key) && row.fingerprint != Some(fingerprint))
                && (row.key == Some(key) && row.fingerprint == Some(fingerprint) ==>
                      var stale := now - (if row.executingAt.Some? then row.executingAt.value else row.createdAt) > 300.0;
                      var verified := op.Some? && op.value.result.Some? && op.value.status in {GitVerified, SuccessVerified};
                      && (outcome == Released <==> op == None && stale)
                      && (outcome.Resume? <==> verified)
                      && (verified ==> outcome == Resume(op.value.id, op.value.status == SuccessVerified, op.value.result.value))
                      && (outcome == StillRunning <==> !stale && !verified && (op == None || op.value.status in {InProgress, Running}))
                      && (outcome == RecoveryRequired <==> op.Some? && !verified && (stale || op.value.status !in {InProgress, Running})))
      ensures outcome != Released ==> rows == old(rows)
      ensures outcome == Released ==>
                && OthersStay(old(rows), rows, p) && p in rows
                && rows[p].status == Ready && rows[p].key == None && rows[p].fingerprint == None && rows[p].executingAt == None
                && SameTerms(rows[p], old(rows)[p]) && rows[p].result == old(rows)[p].result && rows[p].failure == old(rows)[p].failure
    {
      if p !in rows { return NotFound; }
      var row := rows[p];
      if !row.status.Executing? { return NotExecuting; }
      if row.key != Some(key) { return AlreadyConsumed; }
      if row.fingerprint != Some(fingerprint) { return Conflict; }
      var since := if row.executingAt.Some? then row.executingAt.value else row.createdAt;
      var age := if now - since < 0.0 then 0.0 else now - since;
      if op.None? {
        if age <= EXECUTION_STALE_SECONDS { return StillRunning; }
        rows := rows[p := row.(status := Ready, key := None, fingerprint := None, executingAt := None)];
        return Released;
      }
      var o := op.value;
      if (o.status.GitVerified? || o.status.SuccessVerified?) && o.result.Some? {
        return Resume(o.id, o.status.SuccessVerified?, o.result.value);
      }
      if (o.status.InProgress? || o.status.Running?) && age <= EXECUTION_STALE_SECONDS { return StillRunning; }
      outcome := RecoveryRequired;
    }

    method MarkCommitted(p: PreparedId, result: Json) returns (ok: bool)
      modifies this
      ensures rows == Commit(old(rows), p, result)
      ensures ok <==> p in old(rows) && old(rows)[p].status.Executing?
      ensures !ok ==> rows == old(rows)
      ensures ok ==>
                && OthersStay(old(rows), rows, p) && p in rows
                && rows[p].status == Committed && rows[p].result.Some? && SameTerms(rows[p], old(rows)[p])
                && rows[p].key == old(rows)[p].key && rows[p].fingerprint == old(rows)[p].fingerprint
                && (forall k :: k in rows[p].result.value <==> k in result && !IsLocator(k))
                && (forall k :: k in rows[p].result.value ==> rows[p].result.value[k] == result[k])
    {
      ok := p in rows && rows[p].status.Executing?;
      if ok {
        var safe := map k | k in result && k !in UNSAFE :: result[k];
        assert safe == Safe(result);
        rows := rows[p := rows[p].(status := Committed, result := Some(safe))];
      }
    }

    method MarkFailedTerminal(p: PreparedId, code: string)
      modifies this
      ensures rows == Fail(old(rows), p, code)
      ensures !(p in old(rows) && old(rows)[p].status == Executing) ==> rows == old(rows)
      ensures p in old(rows) && old(rows)[p].status == Executing ==>
                && OthersStay(old(rows), rows, p) && p in rows
                && rows[p].status == FailedTerminal && rows[p].failure == Some(code) && SameTerms(rows[p], old(rows)[p])
                && rows[p].key == old(rows)[p].key && rows[p].result == old(rows)[p].result
    {
      if p in rows && rows[p].status.Executing? {
        rows := rows[p := rows[p].(status := FailedTerminal, failure := Some(code))];
      }
    }
  }

  // ---- Runs ----

  datatype Action =
    | DoPrepare(p: PreparedId, ttl: Time, now: Time)
    | DoReplay(p: PreparedId, key: string, fingerprint: string, now: Time)
    | DoClaim(p: PreparedId, key: string, fingerprint: string, first: Time, now: Time)
    | DoRecover(p: PreparedId, key: string, fingerprint: string, op: Option<Operation>, now: Time)
    | DoCommit(p: PreparedId, result: Json, now: Time)
    | DoFail(p: PreparedId, code: string, now: Time)
    | DoSweep(now: Time)

  function Next(rows: Rows, a: Action): Rows {
    match a
    case DoPrepare(p, ttl, now) => Prepare(rows, p, now, ttl)
    case DoReplay(p, key, fingerprint, now) => Replay(rows, p, now)
    case DoClaim(p, key, fingerprint, first, now) => Claim(rows, p, key, fingerprint, first, now)
    case DoRecover(p, key, fingerprint, op, now) => Recover(rows, p, key, fingerprint, op, now)
    case DoCommit(p, result, now) => Commit(rows, p, result)
    case DoFail(p, code, now) => Fail(rows, p, code)
    case DoSweep(now) => Swept(rows, now)
  }

  /** The latest clock a call reads. */
  function Latest(a: Action): Time { if a.DoClaim? && a.first > a.now then a.first else a.now }

  function After(rows: Rows, acts: seq<Action>): Rows
    decreases |acts|
  {
    if acts == [] then rows else After(Next(rows, acts[0]), acts[1..])
  }

  predicate Grants(rows: Rows, a: Action, p: PreparedId) {
    a.DoClaim? && a.p == p && ClaimOutcome(rows, p, a.key, a.fingerprint, a.first, a.now).Granted?
  }

  predicate Releases(rows: Rows, a: Action, p: PreparedId) {
    a.DoRecover? && a.p == p && RecoverOutcome(rows, p, a.key, a.fingerprint, a.op, a.now).Released?
  }

  /** A row nobody can be granted again: terminal or expired. */
  predicate Closed(row: Row) { row.status.Committed? || row.status.FailedTerminal? || row.status.Expired? }

  lemma NextKeepsClosed(rows: Rows, a: Action, p: PreparedId)
    requires p in rows && Closed(rows[p])
    ensures p in Next(rows, a) && Closed(Next(rows, a)[p])
    ensures Next(rows, a)[p] == rows[p].(status := Next(rows, a)[p].status)
    ensures Next(rows, a)[p].status == rows[p].status || (Next(rows, a)[p].status.Expired? && rows[p].expiresAt <= Latest(a))
    ensures !Grants(rows, a, p)
  {
  }

  /** What one call does to an executing row: nothing, a release, or the end. */
  lemma NextOfExecuting(rows: Rows, a: Action, p: PreparedId)
    requires p in rows && rows[p].status.Executing?
    ensures p in Next(rows, a) && !Grants(rows, a, p)
    ensures || Next(rows, a)[p] == rows[p]
            || Closed(Next(rows, a)[p])
            || (Releases(rows, a, p) && a.op.None? && a.now > Since(rows[p]) + EXECUTION_STALE_SECONDS
                && rows[p].key == Some(a.key) && rows[p].fingerprint == Some(a.fingerprint))
  {
  }

  lemma {:induction false} ClosedIsNeverGranted(rows: Rows, acts: seq<Action>, p: PreparedId, k: nat)
    requires p in rows && Closed(rows[p]) && k < |acts|
    ensures !Grants(After(rows, acts[..k]), acts[k], p)
    decreases k
  {
    NextKeepsClosed(rows, acts[0], p);
    if k > 0 {
      assert acts[..k][1..] == acts[1..][..k - 1];
      ClosedIsNeverGranted(Next(rows, acts[0]), acts[1..], p, k - 1);
    } else {
      assert acts[..0] == [];
    }
  }

  /** Call j released the claim taken at time t: no durable operation, and older than the limit. */
  predicate ReleasedAt(rows: Rows, acts: seq<Action>, p: PreparedId, t: Time, j: nat)
    requires j < |acts|
  {
    && Releases(After(rows, acts[..j]), acts[j], p)
    && acts[j].op.None? && acts[j].now > t + EXECUTION_STALE_SECONDS
  }

  /**
   While an id is executing since t, a later grant of it comes only after a recovery released that very
   claim, more than 300 seconds old and without a durable operation.
   */
  lemma {:induction false} SecondGrantNeedsRelease(rows: Rows, acts: seq<Action>, p: PreparedId, k: nat) returns (j: nat)
    requires p in rows && rows[p].status.Executing? && k < |acts|
    requires Grants(After(rows, acts[..k]), acts[k], p)
    ensures j < k && ReleasedAt(rows, acts, p, Since(rows[p]), j)
    decreases k
  {
    NextOfExecuting(rows, acts[0], p);
    assert acts[..0] == [];
    if k == 0 {
      assert false;
    } else {
      var next := Next(rows, acts[0]);
      assert acts[..k][1..] == acts[1..][..k - 1];
      if next[p] == rows[p] {
        j := SecondGrantNeedsRelease(next, acts[1..], p, k - 1);
        assert acts[..j + 1][1..] == acts[1..][..j];
        j := j + 1;
      } else if Closed(next[p]) {
        ClosedIsNeverGranted(next, acts[1..], p, k - 1);
        assert false;
      } else {
        j := 0;
      }
    }
  }

  /**
   Once committed, the result and the key and fingerprint it belongs to never change, and the row stays
   committed until a sweep at or after its expiry.
   */
  lemma {:induction false} CommittedIsForEver(rows: Rows, acts: seq<Action>, p: PreparedId)
    requires p in rows && rows[p].status.Committed?
    ensures p in After(rows, acts)
    ensures After(rows, acts)[p] == rows[p] || After(rows, acts)[p] == rows[p].(status := Expired)
    ensures (forall k :: 0 <= k < |acts| ==> Latest(acts[k]) < rows[p].expiresAt) ==> After(rows, acts)[p] == rows[p]
    decreases |acts|
  {
    if acts != [] {
      NextKeepsClosed(rows, acts[0], p);
      var next := Next(rows, acts[0]);
      if next[p].status.Committed? {
        CommittedIsForEver(next, acts[1..], p);
      } else {
        ExpiredIsForEver(next, acts[1..], p);
      }
    }
  }

  lemma {:induction false} ExpiredIsForEver(rows: Rows, acts: seq<Action>, p: PreparedId)
    requires p in rows && rows[p].status.Expired?
    ensures p in After(rows, acts) && After(rows, acts)[p] == rows[p]
    decreases |acts|
  {
    if acts != [] {
      NextKeepsClosed(rows, acts[0], p);
      ExpiredIsForEver(Next(rows, acts[0]), acts[1..], p);
    }
  }

  /**
   The committed result, stripped of its unsafe keys, is what every replay with the holder's key and
   fingerprint returns until expiry; another fingerprint is a conflict and another key is refused.
   */
  lemma ReplaysReturnTheCommit(rows: Rows, result: Json, acts: seq<Action>, p: PreparedId, key: string,
                               fingerprint: string, now: Time)
    requires p in rows && rows[p].status.Executing?
    requires forall k :: 0 <= k < |acts| ==> Latest(acts[k]) < rows[p].expiresAt
    ensures var outcome := ReplayOutcome(After(Commit(rows, p, result), acts), p, key, fingerprint, now);
            && (rows[p].key == Some(key) && rows[p].fingerprint == Some(fingerprint) <==> outcome == Replayed(Safe(result)))
            && (rows[p].key == Some(key) && rows[p].fingerprint != Some(fingerprint) <==> outcome == Conflict)
            && (rows[p].key != Some(key) <==> outcome == AlreadyConsumed)
  {
    CommittedIsForEver(Commit(rows, p, result), acts, p);
  }

  // ---- Where the protocol is weaker than it looks ----

  /**
   Marking is not tied to the claim: a first claimant that is only slow commits the second claimant's
   execution, whose replay then returns the first one's result.
   */
  lemma LateCommitHitsNewHolder(p: PreparedId, first: string, second: string, fingerprint: string, result: Json)
    requires first != second
    ensures var acts := [DoPrepare(p, 3600.0, 0.0), DoClaim(p, first, fingerprint, 1.0, 1.0), DoRecover(p, first, fingerprint, None, 302.0),
                         DoClaim(p, second, fingerprint, 303.0, 303.0), DoCommit(p, result, 304.0)];
            ReplayOutcome(After(map[], acts), p, second, fingerprint, 305.0) == Replayed(Safe(result))
  {
    var start: Rows := map[];
    var r1 := Next(start, DoPrepare(p, 3600.0, 0.0));
    var r2 := Next(r1, DoClaim(p, first, fingerprint, 1.0, 1.0));
    var r3 := Next(r2, DoRecover(p, first, fingerprint, None, 302.0));
    var r4 := Next(r3, DoClaim(p, second, fingerprint, 303.0, 303.0));
    var r5 := Next(r4, DoCommit(p, result, 304.0));
    FiveSteps(start, DoPrepare(p, 3600.0, 0.0), DoClaim(p, first, fingerprint, 1.0, 1.0), DoRecover(p, first, fingerprint, None, 302.0),
              DoClaim(p, second, fingerprint, 303.0, 303.0), DoCommit(p, result, 304.0));
    assert r5[p].key == Some(second);
  }

  lemma FiveSteps(rows: Rows, a: Action, b: Action, c: Action, d: Action, e: Action)
    ensures After(rows, [a, b, c, d, e]) == Next(Next(Next(Next(Next(rows, a), b), c), d), e)
  {
    hide Next;
    var none: seq<Action> := [];
    assert [a, b, c, d, e][1..] == [b, c, d, e] && [b, c, d, e][1..] == [c, d, e];
    assert [c, d, e][1..] == [d, e] && [d, e][1..] == [e] && [e][1..] == none;
    var r := Next(Next(Next(rows, a), b), c);
    assert After(r, [d, e]) == After(Next(r, d), [e]) == After(Next(Next(r, d), e), none);
    assert After(rows, [a, b, c, d, e]) == After(Next(rows, a), [b, c, d, e]) == After(Next(Next(rows, a), b), [c, d, e]);
  }

  /** A clock that starts at t and never goes back. */
  ghost predicate Clock(t: Time, acts: seq<Action>)
    decreases |acts|
  {
    acts == [] || (t <= acts[0].now && Clock(acts[0].now, acts[1..]))
  }

  /** Some recovery of the run released p. */
  ghost predicate SomeRelease(rows: Rows, acts: seq<Action>, p: PreparedId)
    decreases |acts|
  {
    acts != [] && (Releases(rows, acts[0], p) || SomeRelease(Next(rows, acts[0]), acts[1..], p))
  }

  /** After a release at time t, whoever executes p does so since later than t. */
  lemma {:induction false} LaterClaimIsYounger(rows: Rows, acts: seq<Action>, p: PreparedId, t: Time, now: Time)
    requires p in rows && (rows[p].status.Executing? ==> Since(rows[p]) > t) && t < now && Clock(now, acts)
    ensures p in After(rows, acts) && (After(rows, acts)[p].status.Executing? ==> Since(After(rows, acts)[p]) > t)
    decreases |acts|
  {
    if acts != [] {
      NextKeepsYoung(rows, acts[0], p, t);
      LaterClaimIsYounger(Next(rows, acts[0]), acts[1..], p, t, acts[0].now);
    }
  }

  lemma NextKeepsYoung(rows: Rows, a: Action, p: PreparedId, t: Time)
    requires p in rows && (rows[p].status.Executing? ==> Since(rows[p]) > t) && t < a.now
    ensures p in Next(rows, a) && (Next(rows, a)[p].status.Executing? ==> Since(Next(rows, a)[p]) > t)
  {
  }

  lemma {:induction false} ClosedStaysClosed(rows: Rows, acts: seq<Action>, p: PreparedId)
    requires p in rows && Closed(rows[p])
    ensures p in After(rows, acts) && Closed(After(rows, acts)[p])
    decreases |acts|
  {
    if acts != [] {
      NextKeepsClosed(rows, acts[0], p);
      ClosedStaysClosed(Next(rows, acts[0]), acts[1..], p);
    }
  }

  /**
   Exactly when a claim is still the claimant's own: on a clock that does not go back, an id that executes
   before and after a run still executes under the same claim if and only if no recovery released it.
   */
  lemma {:induction false} ClaimSurvivesIff(rows: Rows, acts: seq<Action>, p: PreparedId)
    requires p in rows && rows[p].status.Executing? && Clock(Since(rows[p]), acts)
    requires p in After(rows, acts) && After(rows, acts)[p].status.Executing?
    ensures After(rows, acts)[p] == rows[p] <==> !SomeRelease(rows, acts, p)
    ensures SomeRelease(rows, acts, p) ==> Since(After(rows, acts)[p]) > Since(rows[p])
    decreases |acts|
  {
    if acts != [] {
      var a, next := acts[0], Next(rows, acts[0]);
      NextOfExecuting(rows, a, p);
      if next[p] == rows[p] {
        ReleaseChangesRow(rows, a, p);
        ClockFromEarlier(Since(rows[p]), a.now, acts[1..]);
        ClaimSurvivesIff(next, acts[1..], p);
      } else if Closed(next[p]) {
        ClosedStaysClosed(next, acts[1..], p);
        assert false;
      } else {
        ReleaseChangesRow(rows, a, p);
        LaterClaimIsYounger(next, acts[1..], p, Since(rows[p]), a.now);
      }
    }
  }

  lemma ReleaseChangesRow(rows: Rows, a: Action, p: PreparedId)
    requires p in rows
    ensures Releases(rows, a, p) ==> p in Next(rows, a) && Next(rows, a)[p].status.Ready?
  {
  }

  lemma ClockFromEarlier(t: Time, now: Time, acts: seq<Action>)
    requires t <= now && Clock(now, acts)
    ensures Clock(t, acts)
  {
  }

  /** So a commit lands on the claim it was made under if and only if no recovery released that claim before. */
  lemma CommitLandsIff(rows: Rows, acts: seq<Action>, p: PreparedId, result: Json)
    requires p in rows && rows[p].status.Executing? && Clock(Since(rows[p]), acts)
    requires p in After(rows, acts) && After(rows, acts)[p].status.Executing?
    ensures Commit(After(rows, acts), p, result)[p] == Commit(rows, p, result)[p] <==> !SomeRelease(rows, acts, p)
  {
    ClaimSurvivesIff(rows, acts, p);
  }

  // ---- The claim without atomicity ----

  /** One call more. */
  lemma {:induction false} AfterOneMore(rows: Rows, acts: seq<Action>, k: nat)
    requires k < |acts|
    ensures After(rows, acts[..k + 1]) == Next(After(rows, acts[..k]), acts[k])
    decreases k
  {
    hide Next;
    if k == 0 {
      assert acts[..0] == [] && acts[..1] == [acts[0]] && [acts[0]][1..] == [];
    } else {
      assert acts[..k + 1][1..] == acts[1..][..k] && acts[..k][1..] == acts[1..][..k - 1];
      AfterOneMore(Next(rows, acts[0]), acts[1..], k - 1);
    }
  }

  /** The conditional update of claim_for_write: it wins on an unexpired prepared row. */
  predicate Wins(rows: Rows, p: PreparedId, now: Time) { p in rows && rows[p].status.Ready? && rows[p].expiresAt > now }

  datatype Raced = Raced(answer: Outcome, holds: bool)

  /**
   claim_for_write as three transactions with other calls between them: the first replay at `first`, the
   calls `before`, the conditional update at `now`, the calls `between`, and the second replay at `last`.
   */
  function RacedClaim(rows: Rows, before: seq<Action>, between: seq<Action>, p: PreparedId, key: string, fingerprint: string,
                      first: Time, now: Time, last: Time): Raced
  {
    var replay := ReplayOutcome(rows, p, key, fingerprint, first);
    if !replay.NothingToReplay? then Raced(replay, false)
    else
      var middle := After(rows, before);
      if Wins(middle, p, now) then Raced(Granted, true)
      else Raced(ReplayOutcome(After(middle, between), p, key, fingerprint, last), false)
  }

  /** The caller goes on to write when the answer is empty, whichever of the two ways it became so. */
  predicate ToldGranted(answer: Outcome) { answer.Granted? || answer.NothingToReplay? }

  /** With nothing in between it is the atomic claim: the same answer, and the id is held exactly when granted. */
  lemma AloneIsAtomic(rows: Rows, p: PreparedId, key: string, fingerprint: string, first: Time, now: Time)
    ensures var r := RacedClaim(rows, [], [], p, key, fingerprint, first, now, now);
            r.answer == ClaimOutcome(rows, p, key, fingerprint, first, now) && (r.holds <==> r.answer.Granted?)
  {
  }

  /** The call ends a running execution of p: a release, a commit or a failure. */
  predicate EndsClaim(rows: Rows, a: Action, p: PreparedId) {
    Releases(rows, a, p) || ((a.DoCommit? || a.DoFail?) && a.p == p)
  }

  /** Call k of the run is granted p; or ends its execution; or releases it. */
  predicate GrantedAt(rows: Rows, acts: seq<Action>, p: PreparedId, k: nat)
    requires k < |acts|
  {
    Grants(After(rows, acts[..k]), acts[k], p)
  }

  predicate EndedAt(rows: Rows, acts: seq<Action>, p: PreparedId, k: nat)
    requires k < |acts|
  {
    EndsClaim(After(rows, acts[..k]), acts[k], p)
  }

  predicate ReleasedIn(rows: Rows, acts: seq<Action>, p: PreparedId, k: nat)
    requires k < |acts|
  {
    Releases(After(rows, acts[..k]), acts[k], p)
  }

  /** Among the first n calls one was granted p and none after it ended that execution. */
  ghost predicate Taken(rows: Rows, acts: seq<Action>, p: PreparedId, n: nat)
    requires n <= |acts|
  {
    exists k :: 0 <= k < n && GrantedAt(rows, acts, p, k) && forall m :: k < m < n ==> !EndedAt(rows, acts, p, m)
  }

  /** Among the first n calls one released p and none after it was granted p. */
  ghost predicate GivenBack(rows: Rows, acts: seq<Action>, p: PreparedId, n: nat)
    requires n <= |acts|
  {
    exists k :: 0 <= k < n && ReleasedIn(rows, acts, p, k) && forall m :: k < m < n ==> !GrantedAt(rows, acts, p, m)
  }

  lemma TakenNone(rows: Rows, acts: seq<Action>, p: PreparedId)
    ensures !Taken(rows, acts, p, 0) && !GivenBack(rows, acts, p, 0)
  {
  }

  lemma TakenStep(rows: Rows, acts: seq<Action>, p: PreparedId, n: nat)
    requires 0 < n <= |acts|
    ensures Taken(rows, acts, p, n) <==> (Taken(rows, acts, p, n - 1) && !EndedAt(rows, acts, p, n - 1)) || GrantedAt(rows, acts, p, n - 1)
    ensures GivenBack(rows, acts, p, n)
       <==> (GivenBack(rows, acts, p, n - 1) && !GrantedAt(rows, acts, p, n - 1)) || ReleasedIn(rows, acts, p, n - 1)
  {
    hide GrantedAt, EndedAt, ReleasedIn;
    if Taken(rows, acts, p, n) {
      var k :| 0 <= k < n && GrantedAt(rows, acts, p, k) && forall m :: k < m < n ==> !EndedAt(rows, acts, p, m);
    }
    if GivenBack(rows, acts, p, n) {
      var k :| 0 <= k < n && ReleasedIn(rows, acts, p, k) && forall m :: k < m < n ==> !GrantedAt(rows, acts, p, m);
    }
  }

  /** What one call before the expiry of p does to p. */
  lemma StepOf(rows: Rows, a: Action, p: PreparedId)
    requires p in rows && Latest(a) < rows[p].expiresAt
    ensures p in Next(rows, a) && Next(rows, a)[p].expiresAt == rows[p].expiresAt
    ensures rows[p].status.Ready? ==>
              !Releases(rows, a, p) && Next(rows, a)[p].status == if Grants(rows, a, p) then Executing else Ready
    ensures rows[p].status.Executing? ==>
              && !Grants(rows, a, p)
              && (Next(rows, a)[p].status.Executing? <==> !EndsClaim(rows, a, p))
              && (Next(rows, a)[p].status.Ready? <==> Releases(rows, a, p))
    ensures Closed(rows[p]) ==> !Grants(rows, a, p) && !Releases(rows, a, p) && Closed(Next(rows, a)[p])
  {
  }

  /** Before the expiry a prepared id is executing exactly when it was granted and not ended since. */
  lemma {:induction false} ExecutingIff(rows: Rows, acts: seq<Action>, p: PreparedId, n: nat)
    requires p in rows && rows[p].status.Ready? && n <= |acts|
    requires forall k :: 0 <= k < |acts| ==> Latest(acts[k]) < rows[p].expiresAt
    ensures p in After(rows, acts[..n]) && After(rows, acts[..n])[p].expiresAt == rows[p].expiresAt
    ensures After(rows, acts[..n])[p].status.Executing? <==> Taken(rows, acts, p, n)
  {
    hide Next, Grants, Releases, EndsClaim, Latest, Taken, GivenBack;
    TakenNone(rows, acts, p);
    assert acts[..0] == [];
    if n > 0 {
      AfterOneMore(rows, acts, n - 1);
      ExecutingIff(rows, acts, p, n - 1);
      StepOf(After(rows, acts[..n - 1]), acts[n - 1], p);
      TakenStep(rows, acts, p, n);
    }
  }

  /** Before the expiry an executing id is prepared again exactly when it was released and not granted since. */
  lemma {:induction false} ReadyIff(rows: Rows, acts: seq<Action>, p: PreparedId, n: nat)
    requires p in rows && rows[p].status.Executing? && n <= |acts|
    requires forall k :: 0 <= k < |acts| ==> Latest(acts[k]) < rows[p].expiresAt
    ensures p in After(rows, acts[..n]) && After(rows, acts[..n])[p].expiresAt == rows[p].expiresAt
    ensures After(rows, acts[..n])[p].status.Ready? <==> GivenBack(rows, acts, p, n)
  {
    hide Next, Grants, Releases, EndsClaim, Latest, Taken, GivenBack;
    TakenNone(rows, acts, p);
    assert acts[..0] == [];
    if n > 0 {
      AfterOneMore(rows, acts, n - 1);
      ReadyIff(rows, acts, p, n - 1);
      StepOf(After(rows, acts[..n - 1]), acts[n - 1], p);
      TakenStep(rows, acts, p, n);
    }
  }

  lemma {:induction false} ExpiryStays(rows: Rows, acts: seq<Action>, p: PreparedId)
    requires p in rows
    ensures p in After(rows, acts) && After(rows, acts)[p].expiresAt == rows[p].expiresAt
    decreases |acts|
  {
    if acts != [] { ExpiryStays(Next(rows, acts[0]), acts[1..], p); }
  }

  /**
   Without atomicity a caller is told "granted" while it holds no claim exactly when, by the calls that came
   in between, another caller took the id and still had it at the update, that execution was released before
   the second read and the id taken by nobody since, and the id has not expired.
   */
  lemma LostRaceLooksGrantedIff(rows: Rows, before: seq<Action>, between: seq<Action>, p: PreparedId, key: string,
                                fingerprint: string, first: Time, now: Time, last: Time)
    requires p in rows && rows[p].status.Ready? && rows[p].expiresAt > first && now <= last
    requires forall k :: 0 <= k < |before| ==> Latest(before[k]) <= now
    requires forall k :: 0 <= k < |between| ==> Latest(between[k]) <= last
    ensures var r := RacedClaim(rows, before, between, p, key, fingerprint, first, now, last);
            ToldGranted(r.answer) && !r.holds
            <==> (&& rows[p].expiresAt > last && Taken(rows, before, p, |before|)
                  && GivenBack(After(rows, before), between, p, |between|))
  {
    hide Next, Grants, Releases, Taken, GivenBack, After, Latest;
    var middle := After(rows, before);
    assert before[..|before|] == before && between[..|between|] == between;
    ExpiryStays(rows, before, p);
    ExpiryStays(middle, between, p);
    if rows[p].expiresAt > last {
      ExecutingIff(rows, before, p, |before|);
      if middle[p].status.Executing? {
        ReadyIff(middle, between, p, |between|);
      } else if Closed(middle[p]) {
        ClosedStaysClosed(middle, between, p);
      }
    }
  }
}
