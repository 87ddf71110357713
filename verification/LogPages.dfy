/** The bounded page reader over one job's log, and the client that follows its cursors. */
module LogPages {
  import opened LogStore
  import opened Utf8

  /** One returned fragment: the part of a row that fell inside the page. */
  datatype Fragment = Fragment(index: int, offsetFrom: int, offsetTo: int, content: string)

  datatype Page = Page(chunks: seq<Fragment>, nextOffset: Option<int>, totalBytes: int, hasMore: bool)

  datatype Result<+T> = Ok(value: T) | InvalidRange

  function PageText(chunks: seq<Fragment>): string {
    if chunks == [] then "" else PageText(chunks[..|chunks| - 1]) + chunks[|chunks| - 1].content
  }

  // ---- The row query ----

  /** offset_to > lo, and offset_from < hi when the reader is bounded. */
  predicate Selects(c: Chunk, lo: int, hi: Option<int>) {
    c.offsetTo > lo && (hi.Some? ==> c.offsetFrom < hi.value)
  }

  /** The selected rows among those from index k on, in chunk order. */
  function MatchingFrom(chunks: seq<Chunk>, lo: int, hi: Option<int>, k: nat): seq<Chunk>
    requires k <= |chunks|
    decreases |chunks| - k
  {
    if k == |chunks| then []
    else (if Selects(chunks[k], lo, hi) then [chunks[k]] else []) + MatchingFrom(chunks, lo, hi, k + 1)
  }

  function Matching(chunks: seq<Chunk>, lo: int, hi: Option<int>): seq<Chunk> {
    MatchingFrom(chunks, lo, hi, 0)
  }

  lemma {:induction false} MatchingInterval(chunks: seq<Chunk>, lo: int, hi: Option<int>, a: nat, b: nat, k: nat)
    requires a <= b <= |chunks| && k <= |chunks|
    requires forall i :: 0 <= i < |chunks| ==> (Selects(chunks[i], lo, hi) <==> a <= i < b)
    ensures MatchingFrom(chunks, lo, hi, k) == if k <= a then chunks[a..b] else if k <= b then chunks[k..b] else []
    decreases |chunks| - k
  {
    if k < |chunks| {
      MatchingInterval(chunks, lo, hi, a, b, k + 1);
    }
  }

  /** Index of the first row, from k on, that ends after position p. */
  ghost function RowAfter(chunks: seq<Chunk>, p: int, k: nat): (r: nat)
    requires k <= |chunks|
    ensures k <= r <= |chunks|
    ensures forall i :: k <= i < r ==> chunks[i].offsetTo <= p
    ensures r < |chunks| ==> p < chunks[r].offsetTo
    decreases |chunks| - k
  {
    if k < |chunks| && chunks[k].offsetTo <= p then RowAfter(chunks, p, k + 1) else k
  }

  ghost function RowAt(chunks: seq<Chunk>, p: int): nat { RowAfter(chunks, p, 0) }

  lemma {:induction false} OffsetsGrow(chunks: seq<Chunk>, i: nat, j: nat)
    requires Contiguous(chunks) && i <= j <= |chunks|
    ensures StartOfRow(chunks, i) <= StartOfRow(chunks, j)
    decreases j
  {
    if i < j {
      OffsetsGrow(chunks, i, j - 1);
      assert chunks[j - 1].offsetFrom == StartOfRow(chunks, j - 1);
    }
  }

  /** The query selects an interval of rows. */
  lemma SelectedRow(chunks: seq<Chunk>, lo: nat, hi: Option<int>, k: nat)
    requires Contiguous(chunks) && (hi.Some? ==> lo < hi.value) && k < |chunks|
    ensures Selects(chunks[k], lo, hi) <==>
              RowAt(chunks, lo) <= k && (hi.Some? ==> k <= RowAt(chunks, hi.value - 1))
  {
    assert chunks[k].offsetFrom == StartOfRow(chunks, k);
    var a := RowAt(chunks, lo);
    if a <= k { OffsetsGrow(chunks, a + 1, k + 1); }
    if hi.Some? {
      var r := RowAt(chunks, hi.value - 1);
      if r < k { OffsetsGrow(chunks, r + 1, k); }
    }
  }

  /** The query returns the consecutive rows from the one that holds `lo` to the last below `hi`. */
  lemma MatchingRows(chunks: seq<Chunk>, lo: nat, hi: Option<int>) returns (a: nat, b: nat)
    requires Contiguous(chunks) && (hi.Some? ==> lo < hi.value)
    ensures a <= b <= |chunks| && Matching(chunks, lo, hi) == chunks[a..b]
    ensures a == b <==> |Text(chunks)| <= lo
    ensures a < b ==> chunks[a].offsetFrom <= lo < chunks[a].offsetTo
    ensures b == |chunks| || (hi.Some? && 0 < b && chunks[b - 1].offsetTo >= hi.value)
    ensures forall k :: a <= k < b ==> Selects(chunks[k], lo, hi)
  {
    a := RowAt(chunks, lo);
    b := |chunks|;
    if hi.Some? {
      var r := RowAt(chunks, hi.value - 1);
      assert a <= r;
      b := Min(r + 1, |chunks|);
    }
    forall k | 0 <= k < |chunks| ensures Selects(chunks[k], lo, hi) <==> a <= k < b {
      SelectedRow(chunks, lo, hi, k);
    }
    MatchingInterval(chunks, lo, hi, a, b, 0);
    EndOfRowAt(chunks, lo);
  }

  lemma EndOfRowAt(chunks: seq<Chunk>, p: nat)
    requires Contiguous(chunks)
    ensures |Text(chunks)| == StartOfRow(chunks, |chunks|)
    ensures RowAt(chunks, p) == |chunks| <==> |Text(chunks)| <= p
    ensures RowAt(chunks, p) < |chunks| ==> chunks[RowAt(chunks, p)].offsetFrom <= p
  {
    RowEnds(chunks, |chunks|);
    var a := RowAt(chunks, p);
    if a < |chunks| {
      assert chunks[a].offsetFrom == StartOfRow(chunks, a);
      OffsetsGrow(chunks, a + 1, |chunks|);
    }
  }

  lemma {:induction false} TextGrows(chunks: seq<Chunk>, k: nat, m: nat)
    requires k <= m <= |chunks|
    ensures TextTo(chunks, k) <= TextTo(chunks, m)
    decreases m
  {
    if k < m { TextGrows(chunks, k, m - 1); }
  }

  /** A row holds exactly the characters of the whole text between its offsets. */
  lemma RowText(chunks: seq<Chunk>, k: nat)
    requires Contiguous(chunks) && k < |chunks|
    ensures 0 <= chunks[k].offsetFrom <= chunks[k].offsetTo <= |Text(chunks)|
    ensures chunks[k].offsetTo == chunks[k].offsetFrom + |chunks[k].content|
    ensures Text(chunks)[chunks[k].offsetFrom..chunks[k].offsetTo] == chunks[k].content
  {
    RowEnds(chunks, k);
    RowEnds(chunks, k + 1);
    assert chunks[k].offsetFrom == StartOfRow(chunks, k);
    TextGrows(chunks, k + 1, |chunks|);
  }

  // ---- One page ----

  /** First position of a page. */
  function PageStart(offset: int, rangeStart: Option<int>): nat {
    Max(Max(offset, 0), if rangeStart.Some? then rangeStart.value else 0)
  }

  /** End of the readable text. */
  function PageEnd(log: JobLog, rangeEnd: Option<int>): int {
    var total := |Text(log.chunks)|;
    if rangeEnd.Some? then Min(rangeEnd.value, total) else total
  }

  /** Whether the character at `p` fits what is left of the byte budget after `used` bytes. */
  predicate NextFits(text: string, p: nat, used: nat, maxBytes: Option<int>)
    requires p < |text|
  {
    maxBytes.Some? ==> used + CharSize(text[p]) <= maxBytes.value
  }

  /** What a page must be, in terms of the plain text only. */
  ghost predicate IsPage(page: Page, text: string, start: nat, end: int, limit: int, maxBytes: Option<int>)
    requires end <= |text|
  {
    var stop := start + |PageText(page.chunks)|;
    && (start < end ==> stop <= end && PageText(page.chunks) == text[start..stop])
    && (end <= start ==> page.chunks == [])
    && |page.chunks| <= Max(limit, 1)
    && (maxBytes.Some? ==> Size(PageText(page.chunks)) <= Max(maxBytes.value, 0))
    // more is promised exactly when some text was returned and some is left
    && page.hasMore == (start < stop < end)
    && page.nextOffset == (if page.hasMore then Some(stop) else None)
    // an empty page inside the range means that the next character alone exceeds the budget
    && (start == stop < end ==> !NextFits(text, start, 0, maxBytes))
  }

  /** Every fragment carries the offsets of the text it holds. */
  ghost predicate OffsetsExact(chunks: seq<Fragment>, text: string) {
    forall f :: f in chunks ==>
      0 <= f.offsetFrom < f.offsetTo <= |text| && text[f.offsetFrom..f.offsetTo] == f.content
  }

  /** The end of a row inside the requested range. */
  function ClipEnd(r: Chunk, rangeEnd: Option<int>): int {
    if rangeEnd.None? then r.offsetTo else Min(r.offsetTo, rangeEnd.value)
  }

  /** The fragments collected so far hold text[start..pos] and its size is `used`. */
  ghost predicate Collected(chunks: seq<Fragment>, text: string, start: nat, pos: nat, used: nat, maxBytes: Option<int>) {
    && (chunks == [] ==> pos == start)
    && (chunks != [] ==> start < pos <= |text| && PageText(chunks) == text[start..pos])
    && used == Size(PageText(chunks))
    && (maxBytes.Some? ==> used <= Max(maxBytes.value, 0))
    && OffsetsExact(chunks, text)
  }

  lemma PageTextAppend(chunks: seq<Fragment>, f: Fragment)
    ensures PageText(chunks + [f]) == PageText(chunks) + f.content
  {
    assert (chunks + [f])[..|chunks|] == chunks;
  }

  lemma Collect(chunks: seq<Fragment>, text: string, start: nat, pos: nat, used: nat, maxBytes: Option<int>,
                f: Fragment)
    requires Collected(chunks, text, start, pos, used, maxBytes)
    requires f.content != "" && f.offsetFrom == pos && f.offsetTo == pos + |f.content| <= |text|
    requires f.content == text[pos..f.offsetTo]
    requires maxBytes.Some? ==> used + Size(f.content) <= Max(maxBytes.value, 0)
    ensures Collected(chunks + [f], text, start, f.offsetTo, used + Size(f.content), maxBytes)
  {
    PageTextAppend(chunks, f);
    SizeAppend(PageText(chunks), f.content);
    assert PageText([]) == "";
    assert PageText(chunks) + f.content == text[start..f.offsetTo];
  }

  /** From `pos` to its clipped end, row r holds the text; a row already behind `pos` ends at `pos`. */
  ghost predicate InRow(r: Chunk, hi: Option<int>, text: string, pos: nat) {
    var end := ClipEnd(r, hi);
    && pos <= end <= |text|
    && (pos < end ==>
          && r.offsetFrom <= pos && end - r.offsetFrom <= |r.content|
          && r.content[pos - r.offsetFrom..end - r.offsetFrom] == text[pos..end])
  }

  /** The rows of a page: consecutive rows holding the text, the first of which holds `lo`. */
  ghost predicate RowsHold(rows: seq<Chunk>, lo: nat, hi: Option<int>, text: string, end: nat) {
    && rows != [] && rows[0].offsetFrom <= lo && lo <= end && (hi.Some? ==> lo < hi.value)
    && forall k {:trigger rows[k].offsetFrom} :: 0 <= k < |rows| ==> RowHolds(rows, k, lo, hi, text, end)
  }

  ghost predicate RowHolds(rows: seq<Chunk>, k: nat, lo: nat, hi: Option<int>, text: string, end: nat)
    requires k < |rows|
  {
    var r := rows[k];
    && Selects(r, lo, hi) && ClipEnd(r, hi) <= end
    && 0 <= r.offsetFrom <= r.offsetTo == r.offsetFrom + |r.content| <= |text|
    && text[r.offsetFrom..r.offsetTo] == r.content
    && (k > 0 ==> r.offsetFrom == rows[k - 1].offsetTo && rows[k - 1].offsetTo > lo)
  }

  /** Row i of the selection continues the text exactly at `pos`. */
  lemma RowInRange(rows: seq<Chunk>, lo: nat, hi: Option<int>, text: string, end: nat, i: nat, pos: nat)
    requires RowsHold(rows, lo, hi, text, end) && i < |rows|
    requires if i == 0 then pos == lo else pos == ClipEnd(rows[i - 1], hi)
    ensures Max(lo, rows[i].offsetFrom) == pos && InRow(rows[i], hi, text, pos) && lo < ClipEnd(rows[i], hi) <= end
  {
    var r := rows[i];
    assert 0 <= r.offsetFrom;
    if pos < ClipEnd(r, hi) {
      SliceOfSlice(text, r.offsetFrom, r.offsetTo, pos, ClipEnd(r, hi));
    }
  }

  lemma SliceOfSlice(text: string, from: nat, to: nat, x: nat, y: nat)
    requires from <= x <= y <= to <= |text|
    ensures text[from..to][x - from..y - from] == text[x..y]
  {
    var part := text[from..to];
    forall k | x <= k < y ensures part[x - from..y - from][k - x] == text[k] {
      assert part[k - from] == text[k];
    }
  }

  /** When the budget cuts a fragment short, the character it stopped at does not fit. */
  lemma PrefixStops(text: string, pos: nat, fragmentEnd: nat, remaining: nat)
    requires pos < fragmentEnd <= |text|
    ensures var kept := Prefix(text[pos..fragmentEnd], remaining);
            && kept == text[pos..pos + |kept|]
            && Size(kept) <= remaining
            && (pos + |kept| < fragmentEnd ==> remaining < Size(kept) + CharSize(text[pos + |kept|]))
  {
    var content := text[pos..fragmentEnd];
    var kept := Prefix(content, remaining);
    assert content[..|kept|] == kept;
    if pos + |kept| < fragmentEnd {
      SizeOfPrefix(content, |kept|);
    }
  }

  /** The rows a page is built from: the first `limit` rows of the query. */
  function PageRows(log: JobLog, readOffset: int, rangeEnd: Option<int>, limit: nat): seq<Chunk> {
    if rangeEnd.Some? && rangeEnd.value <= readOffset then []
    else Take(Matching(log.chunks, readOffset, rangeEnd), limit)
  }

  /**
   The part of one row that belongs to the page: clipped to the range, then to the byte budget.
   `stopped` says that the budget ended it before the clipped row did.
   */
  method ClipRow(r: Chunk, readOffset: nat, boundedStart: Option<int>, rangeEnd: Option<int>, maxBytes: Option<int>,
                 used: nat, ghost text: string, ghost pos: nat)
    returns (content: string, stopped: bool)
    requires boundedStart.Some? ==> boundedStart.value <= readOffset
    requires Max(readOffset, r.offsetFrom) == pos && InRow(r, rangeEnd, text, pos)
    requires maxBytes.Some? ==> used <= Max(maxBytes.value, 0)
    ensures pos + |content| <= Max(pos, ClipEnd(r, rangeEnd)) <= Max(pos, |text|)
    ensures content != "" ==> content == text[pos..pos + |content|]
    ensures maxBytes.Some? ==> used + Size(content) <= Max(maxBytes.value, 0)
    ensures !stopped ==> pos + |content| == Max(pos, ClipEnd(r, rangeEnd))
    ensures stopped ==> pos + |content| < ClipEnd(r, rangeEnd) && !NextFits(text, pos + |content|, used + Size(content), maxBytes)
  {
    hide Prefix, Size;
    EmptyPage(text);
    var fragmentStart := Max(readOffset, r.offsetFrom);
    if boundedStart.Some? {
      fragmentStart := Max(fragmentStart, boundedStart.value);
    }
    var fragmentEnd := ClipEnd(r, rangeEnd);
    if fragmentEnd <= fragmentStart {
      return "", false;
    }
    var localStart := Max(fragmentStart - r.offsetFrom, 0);
    var localEnd := Min(fragmentEnd - r.offsetFrom, |r.content|);
    content, stopped := r.content[localStart..localEnd], false;
    if maxBytes.Some? {
      var remaining := Max(maxBytes.value - used, 0);
      PrefixStops(text, pos, fragmentEnd, remaining);
      content := Prefix(content, remaining);
      stopped := fragmentStart + |content| < fragmentEnd;
    }
  }

  /** Take the selected rows one by one until the budget or the row limit is reached. */
  method CollectRows(rows: seq<Chunk>, readOffset: nat, boundedStart: Option<int>, rangeEnd: Option<int>,
                     rowLimit: nat, maxBytes: Option<int>, ghost text: string, ghost end: nat)
    returns (chunks: seq<Fragment>, nextOffset: Option<int>, ghost pos: nat, ghost used: nat)
    requires RowsHold(rows, readOffset, rangeEnd, text, end) && |rows| <= rowLimit
    requires boundedStart.Some? ==> boundedStart.value <= readOffset
    ensures |chunks| <= rowLimit
    ensures Collected(chunks, text, readOffset, pos, used, maxBytes)
    ensures nextOffset == if chunks == [] then None else Some(pos)
    ensures pos <= end
    ensures || (pos < |text| && !NextFits(text, pos, used, maxBytes))
            || (chunks != [] && pos == ClipEnd(rows[|rows| - 1], rangeEnd))
  {
    hide PageText, OffsetsExact, Size, RowHolds, InRow, Selects;
    chunks, nextOffset, pos, used := [], None, readOffset, 0;
    EmptyPage(text);
    var emittedBytes: nat := 0;
    var i, done := 0, false;
    while i < |rows| && !done
      invariant 0 <= i <= |rows| && |chunks| <= i
      invariant Collected(chunks, text, readOffset, pos, emittedBytes, maxBytes) && used == emittedBytes
      invariant nextOffset == if chunks == [] then None else Some(pos)
      invariant pos <= end
      invariant !done && i > 0 ==> chunks != [] && pos == ClipEnd(rows[i - 1], rangeEnd)
      invariant done ==> || (pos < |text| && !NextFits(text, pos, used, maxBytes))
                         || (chunks != [] && pos == ClipEnd(rows[|rows| - 1], rangeEnd))
    {
      var r := rows[i];
      RowInRange(rows, readOffset, rangeEnd, text, end, i, pos);
      var content, stopped := ClipRow(r, readOffset, boundedStart, rangeEnd, maxBytes, emittedBytes, text, pos);
      if content != "" {
        var start := Max(readOffset, r.offsetFrom);
        var fragment := Fragment(r.index, start, start + |content|, content);
        Collect(chunks, text, readOffset, pos, emittedBytes, maxBytes, fragment);
        chunks := chunks + [fragment];
        nextOffset := Some(start + |content|);
        emittedBytes := emittedBytes + Size(content);
        pos, used := pos + |content|, emittedBytes;
      }
      i := i + 1;
      done := stopped || |chunks| >= rowLimit;
    }
  }

  /** The page took every row the limit allows. */
  predicate AtRowLimit(rows: seq<Chunk>, limit: nat, rangeEnd: Option<int>, pos: nat) {
    0 < |rows| == limit && pos == ClipEnd(rows[|rows| - 1], rangeEnd)
  }

  method GetLogChunks(log: JobLog, offset: int, limit: int, rangeStart: Option<int>, rangeEnd: Option<int>,
                      maxBytes: Option<int>)
    returns (r: Result<Page>)
    requires Contiguous(log.chunks)
    ensures r.InvalidRange? <==> rangeStart.Some? && rangeEnd.Some? && rangeEnd.value < Max(rangeStart.value, 0)
    ensures r.Ok? ==> IsPage(r.value, Text(log.chunks), PageStart(offset, rangeStart), PageEnd(log, rangeEnd), limit, maxBytes)
    ensures r.Ok? ==> OffsetsExact(r.value.chunks, Text(log.chunks))
    // the length a reader is told: of the range when both its ends are given, else of the whole log
    ensures r.Ok? ==> r.value.totalBytes ==
                      if rangeStart.Some? && rangeEnd.Some? then rangeEnd.value - Max(rangeStart.value, 0) else log.total
    ensures r.Ok? && rangeStart.Some? && rangeEnd.Some? && rangeEnd.value <= |Text(log.chunks)| ==>
              r.value.totalBytes == |Text(log.chunks)[Max(rangeStart.value, 0)..rangeEnd.value]|
    // a page that is not the last one stops only at the budget or at the row limit
    ensures r.Ok? && r.value.hasMore ==>
              var stop := r.value.nextOffset.value;
              || !NextFits(Text(log.chunks), stop, Size(PageText(r.value.chunks)), maxBytes)
              || AtRowLimit(PageRows(log, PageStart(offset, rangeStart), rangeEnd, Max(limit, 1)), Max(limit, 1), rangeEnd, stop)
  {
    hide PageText, OffsetsExact, Size, RowsHold, TextTo, MatchingFrom;
    var readOffset: nat := Max(offset, 0);
    var boundedStart := if rangeStart.Some? then Some(Max(rangeStart.value, 0)) else None;
    if boundedStart.Some? && rangeEnd.Some? && rangeEnd.value < boundedStart.value {
      return InvalidRange;
    }
    if boundedStart.Some? {
      readOffset := Max(readOffset, boundedStart.value);
    }
    var total := if boundedStart.Some? && rangeEnd.Some? then rangeEnd.value - boundedStart.value else log.total;
    NoRows(log, readOffset, rangeEnd, Max(limit, 1));
    EmptyPage(Text(log.chunks));
    var rows := PageRows(log, readOffset, rangeEnd, Max(limit, 1));
    if rows == [] {
      return Ok(Page([], None, total, false));
    }
    SelectedPage(log, readOffset, rangeEnd, Max(limit, 1));
    var chunks, nextOffset, pos, used := CollectRows(rows, readOffset, boundedStart, rangeEnd, Max(limit, 1), maxBytes,
                                                     Text(log.chunks), PageEnd(log, rangeEnd));
    var hasMore := false;
    if nextOffset.Some? && (rangeEnd.None? || nextOffset.value < rangeEnd.value) {
      NoRows(log, pos, rangeEnd, 1);
      hasMore := Matching(log.chunks, nextOffset.value, rangeEnd) != [];
    }
    var page := Page(chunks, if hasMore then nextOffset else None, total, hasMore);
    CollectedIsPage(page, Text(log.chunks), readOffset, PageEnd(log, rangeEnd), limit, maxBytes, pos, used,
                    ClipEnd(rows[|rows| - 1], rangeEnd));
    r := Ok(page);
  }

  /** What the collecting loop leaves behind is a page. */
  lemma CollectedIsPage(page: Page, text: string, start: nat, end: nat, limit: int, maxBytes: Option<int>,
                        pos: nat, used: nat, lastEnd: int)
    requires start < end <= |text| && start <= pos <= end && |page.chunks| <= Max(limit, 1)
    requires Collected(page.chunks, text, start, pos, used, maxBytes)
    requires page.hasMore == (page.chunks != [] && pos < end)
    requires page.nextOffset == if page.hasMore then Some(pos) else None
    requires (pos < |text| && !NextFits(text, pos, used, maxBytes)) || (page.chunks != [] && pos == lastEnd) || pos == end
    ensures IsPage(page, text, start, end, limit, maxBytes) && OffsetsExact(page.chunks, text)
    ensures used == Size(PageText(page.chunks))
  {
    hide PageText, OffsetsExact, Size;
    EmptyPage(text);
  }

  lemma SelectedPage(log: JobLog, lo: nat, hi: Option<int>, limit: nat)
    requires Contiguous(log.chunks) && 0 < limit && lo < PageEnd(log, hi)
    ensures var rows := PageRows(log, lo, hi, limit);
            && RowsHold(rows, lo, hi, Text(log.chunks), PageEnd(log, hi))
            && |rows| <= limit
            && (|rows| == limit || ClipEnd(rows[|rows| - 1], hi) == PageEnd(log, hi))
  {
    hide RowHolds, MatchingFrom, TextTo, InRow, Contiguous, RowAfter;
    var a, b := MatchingRows(log.chunks, lo, hi);
    EndOfRowAt(log.chunks, lo);
    FirstRows(log.chunks, a, b, limit);
    var rows := PageRows(log, lo, hi, limit);
    LastRow(log, a, b, hi);
    forall k | 0 <= k < |rows| ensures RowHolds(rows, k, lo, hi, Text(log.chunks), PageEnd(log, hi)) {
      ChunkHolds(log.chunks, rows, a, k, lo, hi, PageEnd(log, hi));
    }
  }

  lemma LastRow(log: JobLog, a: nat, b: nat, hi: Option<int>)
    requires Contiguous(log.chunks) && a < b <= |log.chunks|
    requires b == |log.chunks| || (hi.Some? && log.chunks[b - 1].offsetTo >= hi.value)
    ensures ClipEnd(log.chunks[b - 1], hi) == PageEnd(log, hi)
  {
    RowText(log.chunks, b - 1);
    EndOfRowAt(log.chunks, 0);
  }

  lemma ChunkHolds(chunks: seq<Chunk>, rows: seq<Chunk>, a: nat, k: nat, lo: nat, hi: Option<int>, end: nat)
    requires Contiguous(chunks) && k < |rows| && a + |rows| <= |chunks|
    requires forall i :: 0 <= i < |rows| ==> rows[i] == chunks[a + i]
    requires end == if hi.Some? then Min(hi.value, |Text(chunks)|) else |Text(chunks)|
    requires Selects(chunks[a + k], lo, hi) && (k > 0 ==> Selects(chunks[a + k - 1], lo, hi))
    ensures RowHolds(rows, k, lo, hi, Text(chunks), end)
  {
    RowText(chunks, a + k);
    assert chunks[a + k].offsetFrom == StartOfRow(chunks, a + k);
    if k > 0 { assert rows[k - 1] == chunks[a + k - 1]; }
  }

  lemma FirstRows<T>(s: seq<T>, a: nat, b: nat, limit: nat)
    requires a <= b <= |s|
    ensures |Take(s[a..b], limit)| == Min(limit, b - a)
    ensures forall k :: 0 <= k < |Take(s[a..b], limit)| ==> Take(s[a..b], limit)[k] == s[a + k]
  {
  }

  lemma EmptyPage(text: string)
    ensures PageText([]) == "" && Size("") == 0 && OffsetsExact([], text)
  {
  }

  lemma NoRows(log: JobLog, p: nat, rangeEnd: Option<int>, limit: nat)
    requires Contiguous(log.chunks) && 0 < limit
    ensures PageRows(log, p, rangeEnd, limit) == [] <==> PageEnd(log, rangeEnd) <= p
    ensures (rangeEnd.Some? ==> p < rangeEnd.value) ==> (Matching(log.chunks, p, rangeEnd) == [] <==> |Text(log.chunks)| <= p)
  {
    if rangeEnd.None? || p < rangeEnd.value {
      var a, b := MatchingRows(log.chunks, p, rangeEnd);
    }
  }

  // ---- Following the cursors ----

  /** The first position from p on, up to `end`, whose character alone exceeds the budget. */
  ghost function Reach(text: string, p: nat, end: nat, budget: int): (q: nat)
    requires p <= end <= |text|
    ensures p <= q <= end
    ensures forall k :: p <= k < q ==> CharSize(text[k]) <= budget
    ensures q < end ==> CharSize(text[q]) > budget
    decreases end - p
  {
    if p < end && CharSize(text[p]) <= budget then Reach(text, p + 1, end, budget) else p
  }

  lemma {:induction false} ReachContinues(text: string, p: nat, q: nat, end: nat, budget: int)
    requires p <= q <= end <= |text|
    requires forall k :: p <= k < q ==> CharSize(text[k]) <= budget
    ensures Reach(text, p, end, budget) == Reach(text, q, end, budget)
    decreases q - p
  {
    if p < q { ReachContinues(text, p + 1, q, end, budget); }
  }

  lemma {:induction false} CharWithinSize(s: string, k: nat)
    requires k < |s|
    ensures CharSize(s[k]) <= Size(s)
  {
    if k > 0 { CharWithinSize(s[1..], k - 1); }
  }

  /** What the client gets when it reads from `start` until no page follows. */
  ghost function Readable(text: string, start: nat, end: int, budget: int): string
    requires end <= |text|
  {
    if end <= start then "" else text[start..Reach(text, start, end, budget)]
  }

  lemma PageAdvances(page: Page, text: string, start: nat, end: int, limit: int, budget: int)
    requires end <= |text| && IsPage(page, text, start, end, limit, Some(budget))
    ensures page.hasMore ==>
              && page.nextOffset.Some? && start < page.nextOffset.value < end
              && PageText(page.chunks) == text[start..page.nextOffset.value]
              && Reach(text, start, end, budget) == Reach(text, page.nextOffset.value, end, budget)
    ensures !page.hasMore ==> PageText(page.chunks) == Readable(text, start, end, budget)
  {
    var got := PageText(page.chunks);
    if start < end {
      var stop := start + |got|;
      forall k | start <= k < stop ensures CharSize(text[k]) <= budget {
        CharWithinSize(got, k - start);
        assert got[k - start] == text[k];
      }
      ReachContinues(text, start, stop, end, budget);
    }
  }

  /**
   A client that keeps asking for the next page of a range until none follows. It terminates and
   holds the range up to the first character that no page can carry.
   */
  method ReadRange(log: JobLog, start: nat, end: int, limit: int, budget: int) returns (text: string)
    requires Contiguous(log.chunks) && start <= end
    ensures text == Readable(Text(log.chunks), start, Min(end, |Text(log.chunks)|), budget)
  {
    hide IsPage, PageText, TextTo, OffsetsExact, NextFits, AtRowLimit, PageRows, CharSize;
    ghost var whole := Text(log.chunks);
    ghost var last := PageEnd(log, Some(end));
    text := "";
    var offset, more := start, true;
    while more
      invariant start <= offset && (offset > start ==> offset < last)
      invariant start < last ==> Reach(whole, start, last, budget) == Reach(whole, offset, last, budget)
      invariant more ==> text == if start < last then whole[start..offset] else ""
      invariant !more ==> text == Readable(whole, start, last, budget)
      decreases if more then 1 else 0, last - offset
    {
      var r := GetLogChunks(log, offset, limit, Some(start), Some(end), Some(budget));
      var page := r.value;
      PageAdvances(page, whole, offset, last, limit, budget);
      text := text + PageText(page.chunks);
      more := page.hasMore;
      if more {
        offset := page.nextOffset.value;
      }
    }
  }

  /** Paging loses nothing exactly when every character of the range fits the budget on its own. */
  lemma PagingIsSlicing(text: string, start: nat, end: nat, budget: int)
    requires start <= end <= |text|
    ensures Readable(text, start, end, budget) == text[start..end]
       <==> forall k :: start <= k < end ==> CharSize(text[k]) <= budget
    ensures budget >= 4 ==> Readable(text, start, end, budget) == text[start..end]
  {
    if start < end {
      var q := Reach(text, start, end, budget);
      assert |text[start..q]| == q - start;
      assert q < end <==> exists k :: start <= k < end && CharSize(text[k]) > budget;
    }
  }
}
