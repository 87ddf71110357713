/** The backwards tail scan over one job's log, and the line splitting it relies on. */
module LogTail {
  import opened LogStore
  import opened Utf8

  const MAX_LINES := 1000
  const MAX_SCAN_BYTES := 64 * 1024 * 1024
  const BATCH_ROWS := 100

  // ---- Lines ----

  /** The line boundaries of the language's own line splitting. */
  predicate IsBreak(c: char) {
    || c == '\n' || c == '\r' || c == '\U{0B}' || c == '\U{0C}'
    || c == '\U{1C}' || c == '\U{1D}' || c == '\U{1E}'
    || c == '\U{85}' || c == '\U{2028}' || c == '\U{2029}'
  }

  /** Lines without their ends; "\r\n" is one boundary and a final boundary opens no new line. */
  function SplitLines(s: string): (r: seq<string>)
    ensures s != "" ==> r != []
  {
    if s == "" then []
    else if s[0] == '\r' && |s| > 1 && s[1] == '\n' then SplitLines(s[1..])
    else if IsBreak(s[0]) then [""] + SplitLines(s[1..])
    else
      var rest := SplitLines(s[1..]);
      if rest == [] then [[s[0]]] else [[s[0]] + rest[0]] + rest[1..]
  }

  /** The lines, each followed by the same line end. */
  function Joined(lines: seq<string>, end: string): string {
    if lines == [] then "" else lines[0] + end + Joined(lines[1..], end)
  }

  lemma {:induction false} FirstLineOf(line: string, c: char, rest: string)
    requires IsBreak(c) && (forall k :: 0 <= k < |line| ==> !IsBreak(line[k])) && (rest == "" || c != '\r' || rest[0] != '\n')
    ensures SplitLines(line + [c] + rest) == [line] + SplitLines(rest)
  {
    var s := line + [c] + rest;
    if line == "" {
      assert s[1..] == rest;
    } else {
      assert s[1..] == line[1..] + [c] + rest;
      FirstLineOf(line[1..], c, rest);
      assert [line[0]] + line[1..] == line;
    }
  }

  lemma {:induction false} ReturnNewline(line: string, rest: string)
    requires forall k :: 0 <= k < |line| ==> !IsBreak(line[k])
    ensures SplitLines(line + "\r\n" + rest) == SplitLines(line + "\n" + rest)
  {
    var s, t := line + "\r\n" + rest, line + "\n" + rest;
    if line == "" {
      assert s[1..] == t;
    } else {
      assert s[1..] == line[1..] + "\r\n" + rest && t[1..] == line[1..] + "\n" + rest;
      ReturnNewline(line[1..], rest);
    }
  }

  /** Splitting undoes joining with any of the ten line ends or the pair, for lines that hold none of the ten. */
  lemma {:induction false} SplitUndoesJoin(lines: seq<string>, end: string)
    requires end == "\r\n" || exists c :: c in "\n\r\U{0B}\U{0C}\U{1C}\U{1D}\U{1E}\U{85}\U{2028}\U{2029}" && end == [c]
    requires forall j, k :: 0 <= j < |lines| && 0 <= k < |lines[j]| ==>
               lines[j][k] !in "\n\r\U{0B}\U{0C}\U{1C}\U{1D}\U{1E}\U{85}\U{2028}\U{2029}"
    ensures SplitLines(Joined(lines, end)) == lines
  {
    if lines != [] {
      var line, rest := lines[0], Joined(lines[1..], end);
      SplitUndoesJoin(lines[1..], end);
      assert forall k :: 0 <= k < |line| ==> !IsBreak(line[k]);
      hide SplitLines;
      if end == "\r\n" {
        ReturnNewline(line, rest);
        assert line + "\n" + rest == line + ['\n'] + rest;
        FirstLineOf(line, '\n', rest);
      } else {
        JoinedStart(lines[1..], end);
        FirstLineOf(line, end[0], rest);
      }
      assert [line] + lines[1..] == lines;
    }
  }

  lemma JoinedStart(lines: seq<string>, end: string)
    requires |end| == 1 && (forall j, k :: 0 <= j < |lines| && 0 <= k < |lines[j]| ==> lines[j][k] != '\n')
    ensures Joined(lines, end) == "" || end[0] != '\r' || Joined(lines, end)[0] != '\n'
  {
    if lines != [] && lines[0] != "" { assert Joined(lines, end)[0] == lines[0][0]; }
  }

  function Newlines(s: string): nat {
    if s == "" then 0 else (if s[0] == '\n' then 1 else 0) + Newlines(s[1..])
  }

  function LastLines(lines: seq<string>, n: nat): seq<string> {
    if |lines| <= n then lines else lines[|lines| - n..]
  }

  lemma {:induction false} NewlinesAppend(s: string, t: string)
    ensures Newlines(s + t) == Newlines(s) + Newlines(t)
  {
    if s == "" {
      assert s + t == t;
    } else {
      assert (s + t)[1..] == s[1..] + t;
      NewlinesAppend(s[1..], t);
    }
  }

  lemma {:induction false} LinesPerNewline(s: string)
    ensures |SplitLines(s)| >= Newlines(s)
  {
    if s != "" { LinesPerNewline(s[1..]); }
  }

  /** One more character in front: the same lines, one more, or a longer first line. */
  ghost predicate Extends(whole: seq<string>, rest: seq<string>) {
    whole == rest || whole == [""] + rest || (|whole| == |rest| && rest != [] && whole[1..] == rest[1..])
  }

  lemma SplitStep(s: string)
    requires s != "" && SplitLines(s[1..]) != []
    ensures Extends(SplitLines(s), SplitLines(s[1..]))
  {
  }

  lemma SomeLine(s: string)
    requires s != ""
    ensures SplitLines(s) != []
  {
  }

  lemma ExtendsKeepsTail(whole: seq<string>, rest: seq<string>, part: seq<string>)
    requires Extends(whole, rest) && 1 <= |part| <= |rest| && rest[|rest| - |part| + 1..] == part[1..]
    ensures |part| <= |whole| && whole[|whole| - |part| + 1..] == part[1..]
  {
    var k := |rest| - |part| + 1;
    if whole == [""] + rest {
      assert whole[k + 1..] == rest[k..];
    } else if whole != rest {
      assert whole[1..][k - 1..] == whole[k..] && rest[1..][k - 1..] == rest[k..];
    }
  }

  /** Text put in front of a non-empty text changes at most the first line of the latter. */
  lemma {:induction false} LinesOfSuffix(a: string, b: string)
    requires b != ""
    ensures var whole, part := SplitLines(a + b), SplitLines(b);
            && |part| <= |whole|
            && whole[|whole| - |part| + 1..] == part[1..]
  {
    hide SplitLines, Extends;
    SomeLine(b);
    if a == "" {
      assert a + b == b;
    } else {
      assert (a + b)[1..] == a[1..] + b;
      LinesOfSuffix(a[1..], b);
      SplitStep(a + b);
      ExtendsKeepsTail(SplitLines(a + b), SplitLines(a[1..] + b), SplitLines(b));
    }
  }

  /** A suffix holding n+1 newlines is enough to know the last n lines of the whole. */
  lemma LastLinesOfSuffix(a: string, b: string, n: nat)
    requires Newlines(b) >= n + 1
    ensures LastLines(SplitLines(a + b), n) == LastLines(SplitLines(b), n)
  {
    LinesPerNewline(b);
    LinesOfSuffix(a, b);
    hide SplitLines, Newlines;
    SameEnd(SplitLines(a + b), SplitLines(b), n);
  }

  /** Two lists that agree from the second element of the shorter one on have the same last n elements. */
  lemma SameEnd(whole: seq<string>, part: seq<string>, n: nat)
    requires n < |part| <= |whole| && whole[|whole| - |part| + 1..] == part[1..]
    ensures LastLines(whole, n) == LastLines(part, n)
  {
    var cut := |whole| - |part|;
    assert whole[cut..][1..] == whole[cut + 1..];
    forall k | |part| - n <= k < |part| ensures whole[cut + k] == part[k] {
      assert whole[cut + 1..][k - 1] == part[1..][k - 1];
    }
    assert whole[|whole| - n..] == part[|part| - n..];
  }

  // ---- The scan ----

  /** What the scan has put together so far, newest row first, and the row it stopped in front of. */
  datatype Scanned = Scanned(text: string, bytes: nat, newlines: nat, cursor: nat)

  datatype Tail = Tail(lines: seq<string>, bytesScanned: nat, firstLinePartial: bool, maxBytesReached: bool)

  function VisitRow(st: Scanned, content: string, budget: nat): (r: Scanned)
    requires st.bytes <= budget && 0 < st.cursor
    ensures r.bytes <= budget && r.cursor == st.cursor - 1
  {
    var kept := Prefix(content, budget - st.bytes);
    assert kept == "" ==> Size(kept) == 0;
    Scanned(kept + st.text, st.bytes + Size(kept), st.newlines + Newlines(kept), st.cursor - 1)
  }

  predicate Done(st: Scanned, lines: nat, budget: nat) {
    st.newlines >= lines + 1 || st.bytes >= budget
  }

  /** Visit the rows below the cursor, newest first, until enough newlines or bytes were seen. */
  function Scan(chunks: seq<Chunk>, lines: nat, budget: nat, st: Scanned): (r: Scanned)
    requires st.cursor <= |chunks| && st.bytes <= budget
    ensures r.bytes <= budget && r.cursor <= |chunks|
    decreases st.cursor
  {
    if st.cursor == 0 || Done(st, lines, budget) then st
    else Scan(chunks, lines, budget, VisitRow(st, chunks[st.cursor - 1].content, budget))
  }

  function Clamp(x: int, lo: int, hi: int): int
  {
    Min(Max(x, lo), hi)
  }

  function TailOf(log: JobLog, lines: int, maxScanBytes: int): Tail {
    var n, budget := Clamp(lines, 1, MAX_LINES), Clamp(maxScanBytes, 1, MAX_SCAN_BYTES);
    var st := Scan(log.chunks, n, budget, Scanned("", 0, 0, |log.chunks|));
    Tail(LastLines(SplitLines(st.text), n), st.bytes,
         st.cursor < |log.chunks| && st.newlines < n + 1 && st.bytes >= budget, st.bytes >= budget)
  }

  /** The rows with an index below the cursor, newest first. */
  function RowsBelow(chunks: seq<Chunk>, cursor: Option<int>, k: nat): seq<Chunk>
    requires k <= |chunks|
  {
    if k == 0 then []
    else (if cursor.None? || chunks[k - 1].index < cursor.value then [chunks[k - 1]] else [])
         + RowsBelow(chunks, cursor, k - 1)
  }

  /** The first k rows, newest first. */
  function Backwards(chunks: seq<Chunk>, k: nat): seq<Chunk>
    requires k <= |chunks|
  {
    if k == 0 then [] else [chunks[k - 1]] + Backwards(chunks, k - 1)
  }

  lemma {:induction false} BackwardsAt(chunks: seq<Chunk>, k: nat, i: nat)
    requires k <= |chunks|
    ensures |Backwards(chunks, k)| == k && (i < k ==> Backwards(chunks, k)[i] == chunks[k - 1 - i])
  {
    if k > 0 { BackwardsAt(chunks, k - 1, if i == 0 then 0 else i - 1); }
  }

  lemma {:induction false} BelowIsBackwards(chunks: seq<Chunk>, cursor: Option<int>, c: nat, k: nat)
    requires Contiguous(chunks) && c <= |chunks| && k <= |chunks|
    requires cursor == (if c == |chunks| then None else Some(c)) || cursor == Some(c)
    ensures RowsBelow(chunks, cursor, k) == Backwards(chunks, Min(c, k))
  {
    if k > 0 {
      BelowIsBackwards(chunks, cursor, c, k - 1);
      assert chunks[k - 1].offsetFrom == StartOfRow(chunks, k - 1) && chunks[k - 1].index == k - 1;
    }
    hide Contiguous;
  }

  lemma RowsBelowCursor(chunks: seq<Chunk>, cursor: Option<int>, c: nat)
    requires Contiguous(chunks) && c <= |chunks|
    requires cursor == (if c == |chunks| then None else Some(c)) || cursor == Some(c)
    ensures var rows := RowsBelow(chunks, cursor, |chunks|);
            |rows| == c && forall i :: 0 <= i < c ==> rows[i] == chunks[c - 1 - i] && rows[i].index == c - 1 - i
  {
    BelowIsBackwards(chunks, cursor, c, |chunks|);
    BackwardsAt(chunks, c, 0);
    forall i | 0 <= i < c
      ensures Backwards(chunks, c)[i] == chunks[c - 1 - i] && chunks[c - 1 - i].index == c - 1 - i
    {
      BackwardsAt(chunks, c, i);
      assert chunks[c - 1 - i].offsetFrom == StartOfRow(chunks, c - 1 - i);
    }
    hide Contiguous;
  }

  method GetLogTail(log: JobLog, lines: int, maxScanBytes: int) returns (t: Tail)
    requires Contiguous(log.chunks)
    ensures t == TailOf(log, lines, maxScanBytes)
  {
    hide Prefix, SplitLines, Newlines, LastLines, Size, VisitRow, Contiguous, RowsBelow;
    var n, budget: nat := Clamp(lines, 1, MAX_LINES), Clamp(maxScanBytes, 1, MAX_SCAN_BYTES);
    ghost var start := Scanned("", 0, 0, |log.chunks|);
    var st := Scanned("", 0, 0, |log.chunks|);
    var cursor: Option<int> := None;
    var more := true;
    while more && st.bytes < budget
      invariant st.cursor <= |log.chunks| && st.bytes <= budget
      invariant cursor == if st.cursor == |log.chunks| then None else Some(st.cursor)
      invariant Scan(log.chunks, n, budget, start) == Scan(log.chunks, n, budget, st)
      invariant more ==> !Done(st, n, budget)
      invariant !more ==> st.cursor == 0 || Done(st, n, budget)
      decreases st.cursor, more
    {
      RowsBelowCursor(log.chunks, cursor, st.cursor);
      var batch := Take(RowsBelow(log.chunks, cursor, |log.chunks|), BATCH_ROWS);
      if batch == [] {
        more := false;
      } else {
        var i := 0;
        ghost var top := st.cursor;
        while i < |batch| && more
          invariant 0 <= i <= |batch| <= top <= |log.chunks| && st.cursor == top - i && st.bytes <= budget
          invariant forall k :: 0 <= k < |batch| ==> batch[k] == log.chunks[top - 1 - k] && batch[k].index == top - 1 - k
          invariant cursor == if st.cursor == |log.chunks| then None else Some(st.cursor)
          invariant Scan(log.chunks, n, budget, start) == Scan(log.chunks, n, budget, st)
          invariant more <==> !Done(st, n, budget)
          invariant i == 0 ==> more
        {
          st := VisitRow(st, batch[i].content, budget);
          cursor := Some(batch[i].index);
          i := i + 1;
          if st.newlines >= n + 1 || st.bytes >= budget {
            more := false;
          }
        }
      }
    }
    t := Tail(LastLines(SplitLines(st.text), n), st.bytes,
              cursor.Some? && st.newlines < n + 1 && st.bytes >= budget, st.bytes >= budget);
  }

  // ---- What the tail is ----

  /** A row whose first character is wider than what is left is skipped, and the scan goes on. */
  lemma VisitSkipsWideRow(st: Scanned, content: string, budget: nat)
    requires content != "" && st.bytes <= budget < st.bytes + CharSize(content[0]) && 0 < st.cursor
    ensures VisitRow(st, content, budget) == st.(cursor := st.cursor - 1)
  {
    PrefixDropsWide(content, budget - st.bytes);
    assert Prefix(content, budget - st.bytes) + st.text == st.text;
  }

  // ---- What the scan keeps ----

  /** The text of the rows from k on. */
  function TextFrom(chunks: seq<Chunk>, k: nat): string
    requires k <= |chunks|
    decreases |chunks| - k
  {
    if k == |chunks| then "" else chunks[k].content + TextFrom(chunks, k + 1)
  }

  /** Bytes left of the budget when the rows from i on have been packed greedily, newest first. */
  function Room(chunks: seq<Chunk>, budget: nat, i: nat): (r: nat)
    requires i <= |chunks|
    ensures r <= budget
    decreases |chunks| - i
  {
    if i == |chunks| then budget
    else
      var room := Room(chunks, budget, i + 1);
      SizeOfKept(chunks[i].content, room);
      room - Size(Prefix(chunks[i].content, room))
  }

  /** What that packing keeps: of every row the longest prefix that fits the room left. */
  function Kept(chunks: seq<Chunk>, budget: nat, i: nat): string
    requires i <= |chunks|
    decreases |chunks| - i
  {
    if i == |chunks| then "" else Prefix(chunks[i].content, Room(chunks, budget, i + 1)) + Kept(chunks, budget, i + 1)
  }

  lemma SizeOfKept(content: string, room: nat)
    ensures Size(Prefix(content, room)) <= room
  {
    assert Prefix(content, room) == "" ==> Size(Prefix(content, room)) == 0;
  }

  /** The scan's state in front of row c. */
  function StateAt(chunks: seq<Chunk>, budget: nat, c: nat): Scanned
    requires c <= |chunks|
  {
    Scanned(Kept(chunks, budget, c), budget - Room(chunks, budget, c), Newlines(Kept(chunks, budget, c)), c)
  }

  lemma VisitMoves(chunks: seq<Chunk>, budget: nat, c: nat)
    requires 0 < c <= |chunks|
    ensures VisitRow(StateAt(chunks, budget, c), chunks[c - 1].content, budget) == StateAt(chunks, budget, c - 1)
  {
    hide Prefix, Size, Newlines;
    NewlinesAppend(Prefix(chunks[c - 1].content, Room(chunks, budget, c)), Kept(chunks, budget, c));
  }

  /** The scan ends in front of the first row where it has enough newlines, no room, or no older row. */
  lemma {:induction false} ScanStops(chunks: seq<Chunk>, lines: nat, budget: nat, c: nat) returns (e: nat)
    requires c <= |chunks|
    ensures e <= c && Scan(chunks, lines, budget, StateAt(chunks, budget, c)) == StateAt(chunks, budget, e)
    ensures e == 0 || Done(StateAt(chunks, budget, e), lines, budget)
    ensures forall j :: e < j <= c ==> !Done(StateAt(chunks, budget, j), lines, budget)
    decreases c
  {
    hide StateAt, VisitRow;
    assert StateAt(chunks, budget, c).cursor == c && StateAt(chunks, budget, c).bytes <= budget by { StateBounds(chunks, budget, c); }
    if c == 0 || Done(StateAt(chunks, budget, c), lines, budget) {
      e := c;
    } else {
      VisitMoves(chunks, budget, c);
      e := ScanStops(chunks, lines, budget, c - 1);
    }
  }

  lemma StateBounds(chunks: seq<Chunk>, budget: nat, c: nat)
    requires c <= |chunks|
    ensures StateAt(chunks, budget, c).cursor == c && StateAt(chunks, budget, c).bytes <= budget
  {
  }

  lemma {:induction false} RoomShrinks(chunks: seq<Chunk>, budget: nat, i: nat, j: nat)
    requires i <= j <= |chunks|
    ensures Room(chunks, budget, i) <= Room(chunks, budget, j)
    decreases j - i
  {
    hide Prefix, Size;
    if i < j { RoomShrinks(chunks, budget, i + 1, j); }
  }

  lemma {:induction false} KeptSize(chunks: seq<Chunk>, budget: nat, i: nat)
    requires i <= |chunks|
    ensures Size(Kept(chunks, budget, i)) == budget - Room(chunks, budget, i)
    ensures |Kept(chunks, budget, i)| <= |TextFrom(chunks, i)|
    decreases |chunks| - i
  {
    hide Prefix, Size;
    if i < |chunks| {
      KeptSize(chunks, budget, i + 1);
      SizeAppend(Prefix(chunks[i].content, Room(chunks, budget, i + 1)), Kept(chunks, budget, i + 1));
    } else {
      assert Size("") == 0 by { EmptySize(); }
    }
  }

  lemma EmptySize()
    ensures Size("") == 0
  {
  }

  /** Nothing was cut from row i on exactly when those rows fit the budget together. */
  lemma {:induction false} UncutIff(chunks: seq<Chunk>, budget: nat, i: nat)
    requires i <= |chunks|
    ensures Kept(chunks, budget, i) == TextFrom(chunks, i) <==> Size(TextFrom(chunks, i)) <= budget
    decreases |chunks| - i
  {
    hide Prefix, Size;
    EmptySize();
    KeptSize(chunks, budget, i);
    if i < |chunks| {
      UncutIff(chunks, budget, i + 1);
      var content, rest := chunks[i].content, TextFrom(chunks, i + 1);
      SizeAppend(content, rest);
      if Size(TextFrom(chunks, i)) <= budget {
        KeptSize(chunks, budget, i + 1);
        PrefixKeepsFitting(content, Room(chunks, budget, i + 1));
      }
    }
  }

  lemma {:induction false} TextSplits(chunks: seq<Chunk>, k: nat)
    requires k <= |chunks|
    ensures TextTo(chunks, k) + TextFrom(chunks, k) == Text(chunks)
    decreases |chunks| - k
  {
    if k < |chunks| {
      TextSplits(chunks, k + 1);
      assert TextTo(chunks, k) + (chunks[k].content + TextFrom(chunks, k + 1)) == TextTo(chunks, k + 1) + TextFrom(chunks, k + 1);
    }
  }

  /** The text between two row boundaries. */
  lemma {:induction false} SuffixOfSuffix(chunks: seq<Chunk>, k: nat, c: nat) returns (part: string)
    requires k <= c <= |chunks|
    ensures TextFrom(chunks, k) == part + TextFrom(chunks, c)
    decreases c - k
  {
    if k == c {
      part := "";
      assert TextFrom(chunks, k) == "" + TextFrom(chunks, c);
    } else {
      var rest := SuffixOfSuffix(chunks, k + 1, c);
      part := chunks[k].content + rest;
      assert chunks[k].content + (rest + TextFrom(chunks, c)) == part + TextFrom(chunks, c);
    }
  }

  // ---- What the tail is ----

  /** The rows from k on fit the budget and are all there is, or hold more than n line ends. */
  ghost predicate Settles(chunks: seq<Chunk>, n: nat, budget: nat, k: nat)
    requires k <= |chunks|
  {
    Size(TextFrom(chunks, k)) <= budget && (k == 0 || Newlines(TextFrom(chunks, k)) >= n + 1)
  }

  /** The scan ended with the very text from its cursor on, and with no older text it would need. */
  ghost predicate Complete(chunks: seq<Chunk>, n: nat, end: Scanned)
    requires end.cursor <= |chunks|
  {
    end.text == TextFrom(chunks, end.cursor) && (TextTo(chunks, end.cursor) == "" || Newlines(end.text) >= n + 1)
  }

  ghost function EndOf(chunks: seq<Chunk>, n: nat, budget: nat): (end: Scanned)
    ensures end.cursor <= |chunks|
  {
    Scan(chunks, n, budget, Scanned("", 0, 0, |chunks|))
  }

  /** The end of the scan is one of the greedy packing's states, the first that lets it stop. */
  lemma EndIsKept(chunks: seq<Chunk>, n: nat, budget: nat) returns (e: nat)
    ensures e <= |chunks| && EndOf(chunks, n, budget) == StateAt(chunks, budget, e)
    ensures e == 0 || Done(StateAt(chunks, budget, e), n, budget)
    ensures forall j :: e < j <= |chunks| ==> !Done(StateAt(chunks, budget, j), n, budget)
  {
    hide Scan;
    assert StateAt(chunks, budget, |chunks|) == Scanned("", 0, 0, |chunks|);
    e := ScanStops(chunks, n, budget, |chunks|);
  }

  /**
   Every field of the answer in terms of the log alone. The newest rows are packed into the budget, each with
   the longest prefix that fits what is left, down to the first row in front of which there are enough line
   ends or no room; the fields are those of that packing.
   */
  lemma TailIsPacked(log: JobLog, lines: int, maxScanBytes: int) returns (e: nat)
    ensures e <= |log.chunks|
    ensures var n: nat := if lines < 1 then 1 else if lines > 1000 then 1000 else lines;
            var budget: nat := if maxScanBytes < 1 then 1 else if maxScanBytes > 67108864 then 67108864 else maxScanBytes;
            var t, text := TailOf(log, lines, maxScanBytes), Kept(log.chunks, budget, e);
            && t.lines == LastLines(SplitLines(text), n)
            && t.bytesScanned == Size(text) <= budget
            && (t.maxBytesReached <==> Size(text) == budget)
            && (t.firstLinePartial <==> Size(text) == budget && Newlines(text) <= n && e < |log.chunks|)
            && (e == 0 || Newlines(text) > n || Size(text) == budget)
            && forall j :: e < j <= |log.chunks| ==> Newlines(Kept(log.chunks, budget, j)) <= n && Size(Kept(log.chunks, budget, j)) < budget
  {
    hide SplitLines, Newlines, Scan, Kept, Room, Size;
    var n, budget := Clamp(lines, 1, MAX_LINES), Clamp(maxScanBytes, 1, MAX_SCAN_BYTES);
    e := EndIsKept(log.chunks, n, budget);
    KeptSize(log.chunks, budget, e);
    forall j | e < j <= |log.chunks|
      ensures Newlines(Kept(log.chunks, budget, j)) <= n && Size(Kept(log.chunks, budget, j)) < budget
    {
      KeptSize(log.chunks, budget, j);
      assert !Done(StateAt(log.chunks, budget, j), n, budget);
    }
  }

  lemma SettledIsComplete(chunks: seq<Chunk>, n: nat, budget: nat, k: nat)
    requires k <= |chunks| && Settles(chunks, n, budget, k)
    ensures Complete(chunks, n, EndOf(chunks, n, budget))
  {
    hide Size, Newlines, Scan, EndOf, Room, Kept;
    var e := EndIsKept(chunks, n, budget);
    UncutIff(chunks, budget, k);
    KeptSize(chunks, budget, k);
    assert k == 0 || Done(StateAt(chunks, budget, k), n, budget);
    var between := SuffixOfSuffix(chunks, k, e);
    SizeAppend(between, TextFrom(chunks, e));
    UncutIff(chunks, budget, e);
    KeptSize(chunks, budget, e);
    TextSplits(chunks, e);
    TextSplits(chunks, k);
    if e > 0 && Newlines(TextFrom(chunks, e)) < n + 1 {
      SizeBounds(between);
      assert between == "";
      assert TextFrom(chunks, k) == TextFrom(chunks, e);
      assert k == 0 && TextTo(chunks, 0) == "" && TextTo(chunks, e) + TextFrom(chunks, e) == TextFrom(chunks, e);
    }
  }

  /**
   For every log, however large: the scan ends complete and uncut if and only if some suffix of whole rows
   fits the budget and either is the whole log or holds more than n line ends.
   */
  lemma ScanIsCompleteIff(chunks: seq<Chunk>, n: nat, budget: nat)
    ensures Complete(chunks, n, EndOf(chunks, n, budget)) <==> exists k :: 0 <= k <= |chunks| && Settles(chunks, n, budget, k)
  {
    hide Size, Newlines, Scan, EndOf, Room, Kept;
    if k :| 0 <= k <= |chunks| && Settles(chunks, n, budget, k) {
      SettledIsComplete(chunks, n, budget, k);
    }
    var e := EndIsKept(chunks, n, budget);
    if Complete(chunks, n, EndOf(chunks, n, budget)) {
      UncutIff(chunks, budget, e);
      if TextTo(chunks, e) == "" {
        TextSplits(chunks, e);
        TextSplits(chunks, 0);
        assert TextTo(chunks, 0) + TextFrom(chunks, 0) == TextFrom(chunks, 0);
        assert TextTo(chunks, e) + TextFrom(chunks, e) == TextFrom(chunks, e);
        assert Settles(chunks, n, budget, 0);
      } else {
        assert Settles(chunks, n, budget, e);
      }
    }
  }

  /**
   Then the tail is exactly the last n lines of the full text, for every log, chunking, n and budget: it is
   enough that the newest rows which fit the budget hold more than n line ends.
   */
  lemma TailIsLastLines(log: JobLog, lines: int, maxScanBytes: int, k: nat)
    requires k <= |log.chunks| && Settles(log.chunks, Clamp(lines, 1, MAX_LINES), Clamp(maxScanBytes, 1, MAX_SCAN_BYTES), k)
    ensures TailOf(log, lines, maxScanBytes).lines == LastLines(SplitLines(Text(log.chunks)), Clamp(lines, 1, MAX_LINES))
  {
    hide SplitLines, Newlines, Scan, Settles;
    var n, budget := Clamp(lines, 1, MAX_LINES), Clamp(maxScanBytes, 1, MAX_SCAN_BYTES);
    SettledIsComplete(log.chunks, n, budget, k);
    var end := EndOf(log.chunks, n, budget);
    var before := TextTo(log.chunks, end.cursor);
    TextSplits(log.chunks, end.cursor);
    if before == "" {
      assert before + end.text == end.text;
    } else {
      LastLinesOfSuffix(before, end.text, n);
    }
  }

  /** In particular when the whole log fits the budget. */
  lemma TailOfFittingLog(log: JobLog, lines: int, maxScanBytes: int)
    requires Size(Text(log.chunks)) <= Clamp(maxScanBytes, 1, MAX_SCAN_BYTES)
    ensures TailOf(log, lines, maxScanBytes).lines == LastLines(SplitLines(Text(log.chunks)), Clamp(lines, 1, MAX_LINES))
  {
    TextSplits(log.chunks, 0);
    assert TextFrom(log.chunks, 0) == TextTo(log.chunks, 0) + TextFrom(log.chunks, 0);
    TailIsLastLines(log, lines, maxScanBytes, 0);
  }

  // ---- When a cut goes unreported ----

  /** The greedy packing comes to an end in front of row s with room to spare. */
  ghost predicate StopsWithRoom(chunks: seq<Chunk>, n: nat, budget: nat, s: nat)
    requires s <= |chunks|
  {
    Room(chunks, budget, s) >= 1 && (s == 0 || Newlines(Kept(chunks, budget, s)) >= n + 1)
  }

  /**
   The flag stays down exactly when the packing comes to an end with room to spare; and then something was
   cut exactly when no suffix of whole rows settles the tail.
   */
  lemma FlagStaysDownIff(log: JobLog, lines: int, maxScanBytes: int)
    ensures var n, budget := Clamp(lines, 1, MAX_LINES), Clamp(maxScanBytes, 1, MAX_SCAN_BYTES);
            var t, end := TailOf(log, lines, maxScanBytes), EndOf(log.chunks, n, budget);
            && (!t.maxBytesReached <==> exists s :: 0 <= s <= |log.chunks| && StopsWithRoom(log.chunks, n, budget, s))
            && (!t.maxBytesReached && end.text != TextFrom(log.chunks, end.cursor) <==>
                  && (exists s :: 0 <= s <= |log.chunks| && StopsWithRoom(log.chunks, n, budget, s))
                  && !exists k :: 0 <= k <= |log.chunks| && Settles(log.chunks, n, budget, k))
  {
    hide SplitLines, Newlines, Scan, Settles, Room, Kept, Size;
    var n, budget := Clamp(lines, 1, MAX_LINES), Clamp(maxScanBytes, 1, MAX_SCAN_BYTES);
    var e := EndIsKept(log.chunks, n, budget);
    if s :| 0 <= s <= |log.chunks| && StopsWithRoom(log.chunks, n, budget, s) {
      assert s > 0 ==> Done(StateAt(log.chunks, budget, s), n, budget);
      RoomShrinks(log.chunks, budget, s, e);
    }
    assert TailOf(log, lines, maxScanBytes).maxBytesReached <==> Room(log.chunks, budget, e) == 0;
    assert Room(log.chunks, budget, e) >= 1 ==> StopsWithRoom(log.chunks, n, budget, e);
    ScanIsCompleteIff(log.chunks, n, budget);
    assert e == 0 ==> TextTo(log.chunks, 0) == "";
  }

  /**
   A cut goes unreported only at a character wider than the room left, so at most three bytes are ever left:
   a log of one-byte characters reports every cut.
   */
  lemma {:induction false} CutIsAtWideChar(chunks: seq<Chunk>, budget: nat, i: nat)
    requires i <= |chunks| && Room(chunks, budget, i) >= 1 && Kept(chunks, budget, i) != TextFrom(chunks, i)
    ensures exists j, m :: i <= j < |chunks| && 0 <= m < |chunks[j].content| && CharSize(chunks[j].content[m]) > Room(chunks, budget, i)
    ensures Room(chunks, budget, i) <= 3
    decreases |chunks| - i
  {
    hide Prefix, Size;
    var room := Room(chunks, budget, i + 1);
    if Kept(chunks, budget, i + 1) != TextFrom(chunks, i + 1) {
      CutIsAtWideChar(chunks, budget, i + 1);
    } else {
      var content := chunks[i].content;
      var m := |Prefix(content, room)|;
      SizeOfPrefix(content, m);
      assert content[..m] == Prefix(content, room);
      assert CharSize(content[m]) > Room(chunks, budget, i);
    }
  }

  lemma OneByteLogsReportCuts(log: JobLog, lines: int, maxScanBytes: int)
    requires forall j, m :: 0 <= j < |log.chunks| && 0 <= m < |log.chunks[j].content| ==> CharSize(log.chunks[j].content[m]) == 1
    ensures !TailOf(log, lines, maxScanBytes).maxBytesReached ==>
              TailOf(log, lines, maxScanBytes).lines == LastLines(SplitLines(Text(log.chunks)), Clamp(lines, 1, MAX_LINES))
  {
    hide SplitLines, Newlines, Scan, Settles, Room, Kept, Size;
    var n, budget := Clamp(lines, 1, MAX_LINES), Clamp(maxScanBytes, 1, MAX_SCAN_BYTES);
    FlagStaysDownIff(log, lines, maxScanBytes);
    var e := EndIsKept(log.chunks, n, budget);
    if Room(log.chunks, budget, e) >= 1 && Kept(log.chunks, budget, e) != TextFrom(log.chunks, e) {
      CutIsAtWideChar(log.chunks, budget, e);
    }
    if k :| 0 <= k <= |log.chunks| && Settles(log.chunks, n, budget, k) {
      TailIsLastLines(log, lines, maxScanBytes, k);
    }
  }

  // ---- A skipped row at every budget ----

  function Fill(n: nat): (s: string)
    ensures |s| == n
  {
    if n == 0 then "" else ['a'] + Fill(n - 1)
  }

  /** The budget is two bytes more than the newest row; the row before needs three, the oldest one. */
  function Gapped(budget: nat): JobLog
    requires budget >= 2
  {
    JobLog([Chunk(0, 0, 1, "x"), Chunk(1, 1, 2, "\U{20AC}"), Chunk(2, 2, budget, Fill(budget - 2))], {}, budget, map[])
  }

  lemma {:induction false} FillIsPlain(n: nat)
    ensures Size(Fill(n)) == n && Newlines(Fill(n)) == 0
    ensures forall k :: 0 <= k < n ==> Fill(n)[k] == 'a'
  {
    if n > 0 { FillIsPlain(n - 1); }
  }

  lemma {:induction false} OneLine(s: string)
    requires s != "" && forall k :: 0 <= k < |s| ==> !IsBreak(s[k])
    ensures SplitLines(s) == [s]
  {
    if |s| > 1 {
      OneLine(s[1..]);
      assert [s[0]] + s[1..] == s;
    } else {
      assert s[1..] == "" && [s[0]] == s;
    }
  }

  lemma PackingOfGapped(budget: nat)
    requires budget >= 2
    ensures var rows := Gapped(budget).chunks;
            && Room(rows, budget, 2) == 2 && Room(rows, budget, 1) == 2 && Room(rows, budget, 0) == 1
            && Kept(rows, budget, 2) == Fill(budget - 2) && Kept(rows, budget, 1) == Fill(budget - 2)
            && Kept(rows, budget, 0) == "x" + Fill(budget - 2)
  {
    hide Prefix;
    var rows, fill := Gapped(budget).chunks, Fill(budget - 2);
    FillIsPlain(budget - 2);
    PrefixKeepsFitting(fill, budget);
    assert Kept(rows, budget, 3) == "" && fill + "" == fill;
    assert Room(rows, budget, 2) == 2 && Kept(rows, budget, 2) == fill;
    PrefixDropsWide("\U{20AC}", 2);
    assert "" + fill == fill && Size("") == 0;
    assert Room(rows, budget, 1) == 2 && Kept(rows, budget, 1) == fill;
    assert Size("x") == 1;
    PrefixKeepsFitting("x", 2);
  }

  /**
   At every scan budget there is a log whose tail silently leaves a row out of its middle: the row does not
   fit, the scan goes on with an older one, and the flag that should report the cut stays down.
   */
  lemma TailCanSkipARow(lines: int, budget: nat)
    requires 2 <= budget <= MAX_SCAN_BYTES
    ensures var log := Gapped(budget);
            && Valid(log)
            && TailOf(log, lines, budget).lines == ["x" + Fill(budget - 2)]
            && !TailOf(log, lines, budget).maxBytesReached
            && SplitLines(Text(log.chunks)) == ["x\U{20AC}" + Fill(budget - 2)]
  {
    hide Scan, SplitLines, Room, Kept, EndOf, Gapped, Valid;
    var fill := Fill(budget - 2);
    FillIsPlain(budget - 2);
    EndOfGapped(Clamp(lines, 1, MAX_LINES), budget);
    TailFromEnd(Gapped(budget), lines, budget);
    TextOfGapped(budget);
    OneLine("x" + fill);
    OneLine("x\U{20AC}" + fill);
  }

  lemma TailFromEnd(log: JobLog, lines: int, budget: nat)
    requires 1 <= budget <= MAX_SCAN_BYTES
    ensures var n := Clamp(lines, 1, MAX_LINES);
            && TailOf(log, lines, budget).lines == LastLines(SplitLines(EndOf(log.chunks, n, budget).text), n)
            && (TailOf(log, lines, budget).maxBytesReached <==> EndOf(log.chunks, n, budget).bytes >= budget)
  {
  }

  lemma EndOfGapped(n: nat, budget: nat)
    requires budget >= 2 && n >= 1
    ensures EndOf(Gapped(budget).chunks, n, budget) == Scanned("x" + Fill(budget - 2), budget - 1, 0, 0)
  {
    hide Scan, EndOf, Room, Kept, Gapped;
    var rows, fill := Gapped(budget).chunks, Fill(budget - 2);
    assert |rows| == 3 by { ThreeRows(budget); }
    PackingOfGapped(budget);
    FillIsPlain(budget - 2);
    NewlinesAppend("x", fill);
    assert Newlines("x") == 0;
    var e := EndIsKept(rows, n, budget);
    StartState(rows, budget);
    assert !Done(StateAt(rows, budget, 3), n, budget);
    assert !Done(StateAt(rows, budget, 2), n, budget) && !Done(StateAt(rows, budget, 1), n, budget);
  }

  lemma ThreeRows(budget: nat)
    requires budget >= 2
    ensures |Gapped(budget).chunks| == 3
  {
  }

  lemma StartState(chunks: seq<Chunk>, budget: nat)
    ensures StateAt(chunks, budget, |chunks|) == Scanned("", 0, 0, |chunks|)
  {
  }

  lemma TextOfGapped(budget: nat)
    requires budget >= 2
    ensures Text(Gapped(budget).chunks) == "x\U{20AC}" + Fill(budget - 2) && Valid(Gapped(budget))
  {
    var rows := Gapped(budget).chunks;
    assert TextTo(rows, 0) == "" && TextTo(rows, 1) == "x";
    assert TextTo(rows, 2) == "x\U{20AC}";
  }
}
