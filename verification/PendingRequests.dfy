/** The pending Requests in the order in which a restart takes them up: ORDER BY created_at, request_id LIMIT n. */
module PendingRequests {
  import opened LogStore
  import opened JobQueue
  import opened RequestStore

  /** The order of two ids as the database compares text. */
  predicate TextBefore(a: string, b: string) {
    a == "" || (b != "" && (a[0] < b[0] || (a[0] == b[0] && TextBefore(a[1..], b[1..]))))
  }

  lemma {:induction false} TextOrder(a: string, b: string)
    ensures TextBefore(a, b) || TextBefore(b, a)
    ensures TextBefore(a, b) && TextBefore(b, a) ==> a == b
    decreases |a|
  {
    if a != "" && b != "" && a[0] == b[0] {
      TextOrder(a[1..], b[1..]);
      assert a == [a[0]] + a[1..] && b == [b[0]] + b[1..];
    }
  }

  lemma {:induction false} TextChain(a: string, b: string, c: string)
    requires TextBefore(a, b) && TextBefore(b, c)
    ensures TextBefore(a, c)
    decreases |a|
  {
    if a != "" && a[0] == b[0] && b[0] == c[0] { TextChain(a[1..], b[1..], c[1..]); }
  }

  /** One text is a prefix of the other, or smaller at the first character in which they differ. */
  lemma {:induction false} TextBeforeIff(a: string, b: string)
    ensures TextBefore(a, b) <==> a <= b || exists k :: 0 <= k < |a| && k < |b| && a[k] < b[k] && a[..k] == b[..k]
    decreases |a|
  {
    if a != "" && b != "" && a[0] == b[0] {
      TextBeforeIff(a[1..], b[1..]);
      assert a <= b <==> a[1..] <= b[1..];
      if k :| 0 <= k < |a[1..]| && k < |b[1..]| && a[1..][k] < b[1..][k] && a[1..][..k] == b[1..][..k] {
        assert a[..k + 1] == [a[0]] + a[1..][..k] && b[..k + 1] == [b[0]] + b[1..][..k];
        assert a[k + 1] < b[k + 1];
      }
      if k :| 0 <= k < |a| && k < |b| && a[k] < b[k] && a[..k] == b[..k] {
        assert a[1..][k - 1] < b[1..][k - 1] && a[1..][..k - 1] == a[..k][1..] && b[1..][..k - 1] == b[..k][1..];
      }
    } else if a != "" && b != "" {
      assert a[..0] == b[..0];
    }
  }

  predicate Pending(st: State) { st.Accepted? || st.Preflighting? }

  function PendingIds(requests: map<RequestId, Request>): set<RequestId> {
    set r | r in requests && Pending(requests[r].state)
  }

  /** r is taken up no later than p. */
  predicate Before(requests: map<RequestId, Request>, r: RequestId, p: RequestId)
    requires r in requests && p in requests
  {
    requests[r].createdAt < requests[p].createdAt || (requests[r].createdAt == requests[p].createdAt && TextBefore(r, p))
  }

  lemma BeforeIsTotal(requests: map<RequestId, Request>, r: RequestId, p: RequestId)
    requires r in requests && p in requests
    ensures Before(requests, r, p) || Before(requests, p, r)
    ensures Before(requests, r, p) && Before(requests, p, r) ==> r == p
  {
    TextOrder(r, p);
  }

  lemma BeforeChains(requests: map<RequestId, Request>, r: RequestId, p: RequestId, t: RequestId)
    requires r in requests && p in requests && t in requests && Before(requests, r, p) && Before(requests, p, t)
    ensures Before(requests, r, t)
  {
    if TextBefore(r, p) && TextBefore(p, t) { TextChain(r, p, t); }
  }

  /** LIMIT min(max(limit, 1), 1000). */
  function Limit(limit: int): nat { if limit < 1 then 1 else if limit > 1000 then 1000 else limit }

  lemma {:induction false} FirstExists(requests: map<RequestId, Request>, ids: set<RequestId>) returns (r: RequestId)
    requires ids != {} && ids <= requests.Keys
    ensures r in ids && forall p :: p in ids ==> Before(requests, r, p)
    decreases |ids|
  {
    hide Before;
    var k :| k in ids;
    var rest := ids - {k};
    BeforeIsTotal(requests, k, k);
    if rest == {} {
      r := k;
      assert ids == {k};
    } else {
      var m := FirstExists(requests, rest);
      BeforeIsTotal(requests, k, m);
      r := if Before(requests, k, m) then k else m;
      forall p | p in ids ensures Before(requests, r, p) {
        if p != k && r == k { BeforeChains(requests, k, m, p); }
      }
    }
  }

  /** `rows` is what the query returns: the first rows of the order, no more than the limit. */
  ghost predicate IsPage(requests: map<RequestId, Request>, limit: int, rows: seq<RequestId>) {
    && (forall k :: 0 <= k < |rows| ==> rows[k] in PendingIds(requests))
    && (forall j, k :: 0 <= j < k < |rows| ==> rows[j] != rows[k] && Before(requests, rows[j], rows[k]))
    && (forall r, k :: r in PendingIds(requests) && r !in rows && 0 <= k < |rows| ==> Before(requests, rows[k], r))
    && |rows| == if |PendingIds(requests)| < Limit(limit) then |PendingIds(requests)| else Limit(limit)
  }

  /** Half way through the query: `rows` has been taken, in order, and `left` comes after it. */
  ghost predicate Taken(requests: map<RequestId, Request>, rows: seq<RequestId>, left: set<RequestId>) {
    && left <= PendingIds(requests) && |left| + |rows| == |PendingIds(requests)|
    && (forall r :: r in PendingIds(requests) ==> r in left || r in rows)
    && (forall k :: 0 <= k < |rows| ==> rows[k] in PendingIds(requests) && rows[k] !in left)
    && (forall j, k :: 0 <= j < k < |rows| ==> rows[j] != rows[k] && Before(requests, rows[j], rows[k]))
    && (forall r, k :: r in left && 0 <= k < |rows| ==> Before(requests, rows[k], r))
  }

  lemma NothingTaken(requests: map<RequestId, Request>)
    ensures Taken(requests, [], PendingIds(requests)) && PendingIds(requests) <= requests.Keys
  {
  }

  lemma TakeOneMore(requests: map<RequestId, Request>, rows: seq<RequestId>, left: set<RequestId>, r: RequestId)
    requires Taken(requests, rows, left) && r in left && forall p :: p in left ==> Before(requests, r, p)
    ensures Taken(requests, rows + [r], left - {r})
  {
    hide Before, PendingIds;
  }

  lemma TakenIsPage(requests: map<RequestId, Request>, limit: int, rows: seq<RequestId>, left: set<RequestId>)
    requires Taken(requests, rows, left) && |rows| <= Limit(limit) && (left == {} || |rows| == Limit(limit))
    ensures IsPage(requests, limit, rows)
  {
    hide Before, PendingIds;
  }

  /** The pending Requests that come before r. */
  function Ahead(requests: map<RequestId, Request>, r: RequestId): set<RequestId>
    requires r in requests
  {
    set p | p in PendingIds(requests) && p != r && Before(requests, p, r)
  }

  lemma {:induction false} DistinctCount(rows: seq<RequestId>, ids: set<RequestId>)
    requires forall j, k :: 0 <= j < k < |rows| ==> rows[j] != rows[k]
    requires forall r :: r in ids <==> r in rows
    ensures |ids| == |rows|
    decreases |rows|
  {
    if rows == [] {
      assert ids == {};
    } else {
      var last := rows[|rows| - 1];
      assert rows == rows[..|rows| - 1] + [last];
      DistinctCount(rows[..|rows| - 1], ids - {last});
    }
  }

  lemma {:induction false} SubsetCount(a: set<RequestId>, b: set<RequestId>)
    requires a <= b
    ensures |a| <= |b| && (|a| == |b| ==> a == b)
    decreases |a|
  {
    if a != {} {
      var x :| x in a;
      SubsetCount(a - {x}, b - {x});
      assert a == (a - {x}) + {x} && b == (b - {x}) + {x};
    }
  }

  /** A pending Request is in the page exactly when fewer than the limit come before it. */
  lemma PageHolds(requests: map<RequestId, Request>, limit: int, rows: seq<RequestId>, r: RequestId)
    requires IsPage(requests, limit, rows) && r in PendingIds(requests)
    ensures r in rows <==> |Ahead(requests, r)| < Limit(limit)
  {
    hide Before;
    if r in rows {
      var k :| 0 <= k < |rows| && rows[k] == r;
      forall p | p in PendingIds(requests) ensures p in Ahead(requests, r) <==> p in rows[..k] {
        BeforeIsTotal(requests, p, r);
      }
      DistinctCount(rows[..k], Ahead(requests, r));
    } else {
      var taken := set p | p in rows;
      DistinctCount(rows, taken);
      assert taken < PendingIds(requests);
      SubsetCount(taken, PendingIds(requests));
      assert taken <= Ahead(requests, r);
      SubsetCount(taken, Ahead(requests, r));
    }
  }

  /** A page in rows: pending Requests by age, none older left out, and as many as the clamped limit allows. */
  lemma PageInRows(requests: map<RequestId, Request>, limit: int, rows: seq<RequestId>)
    requires IsPage(requests, limit, rows)
    ensures forall k :: 0 <= k < |rows| ==> rows[k] in requests && requests[rows[k]].state in {Accepted, Preflighting}
    ensures forall j, k :: 0 <= j < k < |rows| ==> requests[rows[j]].createdAt <= requests[rows[k]].createdAt
    ensures forall r :: r in requests && requests[r].state in {Accepted, Preflighting} && r !in rows ==>
              && |rows| == (if limit <= 1 then 1 else if limit >= 1000 then 1000 else limit)
              && forall k :: 0 <= k < |rows| ==> requests[rows[k]].createdAt <= requests[r].createdAt
    ensures |rows| <= 1000 && (limit <= 1 ==> |rows| <= 1) && (1 <= limit ==> |rows| <= limit)
  {
    if exists r :: r in PendingIds(requests) && r !in rows {
      var r :| r in PendingIds(requests) && r !in rows;
      PageHolds(requests, limit, rows, r);
      PageHoldsAllIff(requests, limit, rows);
    }
  }

  /** Every pending Request is in the page exactly when there are no more of them than the limit. */
  lemma PageHoldsAllIff(requests: map<RequestId, Request>, limit: int, rows: seq<RequestId>)
    requires IsPage(requests, limit, rows)
    ensures (forall r :: r in PendingIds(requests) ==> r in rows) <==> |PendingIds(requests)| <= Limit(limit)
  {
    hide Before, PendingIds;
    var taken := set p | p in rows;
    DistinctCount(rows, taken);
    assert taken <= PendingIds(requests);
    SubsetCount(taken, PendingIds(requests));
    if forall r :: r in PendingIds(requests) ==> r in rows { assert taken == PendingIds(requests); }
  }

  /** The tables and the limit fix the page. */
  lemma PageIsUnique(requests: map<RequestId, Request>, limit: int, rows: seq<RequestId>, others: seq<RequestId>)
    requires IsPage(requests, limit, rows) && IsPage(requests, limit, others)
    ensures rows == others
  {
    SamePrefix(requests, limit, rows, others, |rows|);
  }

  lemma {:induction false} SamePrefix(requests: map<RequestId, Request>, limit: int, rows: seq<RequestId>,
                                      others: seq<RequestId>, n: nat)
    requires IsPage(requests, limit, rows) && IsPage(requests, limit, others) && n <= |rows|
    ensures forall j :: 0 <= j < n ==> rows[j] == others[j]
    decreases n
  {
    if n > 0 {
      SamePrefix(requests, limit, rows, others, n - 1);
      NotAhead(requests, limit, rows, others, n - 1);
      NotAhead(requests, limit, others, rows, n - 1);
      BeforeIsTotal(requests, rows[n - 1], others[n - 1]);
    }
  }

  lemma NotAhead(requests: map<RequestId, Request>, limit: int, rows: seq<RequestId>, others: seq<RequestId>, k: nat)
    requires IsPage(requests, limit, rows) && IsPage(requests, limit, others) && k < |rows|
    requires forall j :: 0 <= j < k ==> rows[j] == others[j]
    ensures rows[k] in requests && others[k] in requests && Before(requests, others[k], rows[k])
  {
    hide Before;
    BeforeIsTotal(requests, rows[k], rows[k]);
    if rows[k] in others {
      var m :| 0 <= m < |others| && others[m] == rows[k];
      assert k <= m;
    }
  }
}
