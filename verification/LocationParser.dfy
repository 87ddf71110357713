/**
 The file:line[:column] scanner of the failure pack. It looks at every colon of one token and returns the
 first location whose file part it supports. Letters and digits are whatever the classifier says.
 */
module LocationParser {
  import opened LogStore

  /** str.isalpha and str.isdigit. */
  datatype Classes = Classes(alpha: char -> bool, digit: char -> bool)

  /** No character with a role in the syntax is a letter or a digit. */
  ghost predicate Sane(c: Classes) {
    forall x :: x == ':' || x == '/' || x == '\\' || x == '.' || Boundary(x) || Trailing(x) ==> !c.digit(x) && !c.alpha(x)
  }

  datatype Location = Location(file: string, line: string, column: Option<string>)

  predicate Boundary(x: char) { x == ',' || x == ';' || x == '[' || x == '<' || x == '{' }

  predicate Trailing(x: char) { x == '.' || x == ',' || x == ';' || x == ']' || x == ')' || x == '}' || x == '>' }

  predicate Slash(x: char) { x == '/' || x == '\\' }

  /** token.startswith(part, i). */
  predicate StartsWith(token: string, part: string, i: nat) { i + |part| <= |token| && token[i..i + |part|] == part }

  predicate Contains(s: string, part: string) { exists i: nat :: i <= |s| && StartsWith(s, part, i) }

  /** _is_supported_location_file: no URL, and no colon but that of a leading drive. */
  predicate Supported(c: Classes, file: string) {
    && file != "" && !Contains(file, "://")
    && (':' in file ==> |file| >= 3 && c.alpha(file[0]) && file[1] == ':' && Slash(file[2]) && ':' !in file[2..])
  }

  /** _starts_explicit_location_path. */
  predicate StartsExplicit(c: Classes, token: string, i: nat) {
    i < |token|
    && (|| StartsWith(token, "/", i) || StartsWith(token, "./", i) || StartsWith(token, "../", i)
        || (i + 2 < |token| && c.alpha(token[i]) && token[i + 1] == ':' && Slash(token[i + 2])))
  }

  function RStrip(s: string): (r: string)
    ensures |r| <= |s| && r == s[..|r|] && (r == "" || !Trailing(r[|r| - 1]))
    ensures forall k :: |r| <= k < |s| ==> Trailing(s[k])
  {
    if s != "" && Trailing(s[|s| - 1]) then RStrip(s[..|s| - 1]) else s
  }

  /** The end of the digits that start at i. */
  function DigitsEnd(c: Classes, token: string, i: nat): (e: nat)
    requires i <= |token|
    ensures i <= e <= |token| && (forall k :: i <= k < e ==> c.digit(token[k])) && (e < |token| ==> !c.digit(token[e]))
    decreases |token| - i
  {
    if i < |token| && c.digit(token[i]) then DigitsEnd(c, token, i + 1) else i
  }

  function ColumnAt(c: Classes, token: string, e: nat): Option<string>
    requires e <= |token|
  {
    if e < |token| && token[e] == ':' && e + 1 < |token| && c.digit(token[e + 1])
    then Some(token[e + 1..DigitsEnd(c, token, e + 1)]) else None
  }

  predicate DriveColon(c: Classes, token: string, start: nat, i: nat)
    requires start <= i < |token|
  {
    i == start + 1 && c.alpha(token[start]) && i + 1 < |token| && Slash(token[i + 1])
  }

  predicate Restarts(c: Classes, token: string, i: nat)
    requires i < |token|
  {
    Boundary(token[i]) && StartsExplicit(c, token, i + 1)
  }

  /** The scan from index i, with the current candidate starting at `start`. */
  function Scan(c: Classes, token: string, start: nat, i: nat, url: bool): Option<Location>
    requires start <= i
    decreases |token| - i
  {
    if i >= |token| then None
    else if Restarts(c, token, i) then Scan(c, token, i + 1, i + 1, false)
    else if token[i] != ':' then Scan(c, token, start, i + 1, url)
    else if !DriveColon(c, token, start, i) && StartsWith(token, "//", i + 1) then Scan(c, token, start, i + 3, true)
    else if i + 1 >= |token| || !c.digit(token[i + 1]) then
      Scan(c, token, if DriveColon(c, token, start, i) then start else i + 1, i + 1, url)
    else
      var e := DigitsEnd(c, token, i + 1);
      var file := RStrip(token[start..i]);
      if !url && Supported(c, file) then Some(Location(file, token[i + 1..e], ColumnAt(c, token, e)))
      else Scan(c, token, i + 1, e, url)
  }

  function Parse(c: Classes, token: string): Option<Location> { Scan(c, token, 0, 0, false) }

  /** _parse_location_token. */
  method ParseLocationToken(c: Classes, token: string) returns (r: Option<Location>)
    ensures r == Parse(c, token)
  {
    hide Supported, StartsExplicit, StartsWith, Boundary, RStrip, DigitsEnd, Slash, ColumnAt;
    var start, url, index := 0, false, 0;
    while index < |token|
      invariant 0 <= start <= index
      invariant Parse(c, token) == Scan(c, token, start, index, url)
      decreases |token| - index
    {
      if Boundary(token[index]) && StartsExplicit(c, token, index + 1) {
        start, url, index := index + 1, false, index + 1;
        continue;
      }
      if token[index] != ':' {
        index := index + 1;
        continue;
      }
      var value := index + 1;
      var drive := index == start + 1 && c.alpha(token[start]) && value < |token| && Slash(token[value]);
      assert drive == DriveColon(c, token, start, index);
      if !drive && StartsWith(token, "//", value) {
        url, index := true, value + 2;
        continue;
      }
      if value >= |token| || !c.digit(token[value]) {
        if !drive { start := value; }
        index := value;
        continue;
      }
      var lineEnd := SkipDigits(c, token, value);
      var column: Option<string> := None;
      if lineEnd < |token| && token[lineEnd] == ':' && lineEnd + 1 < |token| && c.digit(token[lineEnd + 1]) {
        var columnEnd := SkipDigits(c, token, lineEnd + 1);
        column := Some(token[lineEnd + 1..columnEnd]);
      }
      assert column == ColumnAt(c, token, lineEnd) by { ColumnDef(c, token, lineEnd); }
      var file := token[start..index];
      file := RStrip(file);
      if !url && Supported(c, file) { return Some(Location(file, token[value..lineEnd], column)); }
      start, index := value, lineEnd;
    }
    r := None;
  }

  lemma ColumnDef(c: Classes, token: string, e: nat)
    requires e <= |token|
    ensures ColumnAt(c, token, e)
         == if e < |token| && token[e] == ':' && e + 1 < |token| && c.digit(token[e + 1])
            then Some(token[e + 1..DigitsEnd(c, token, e + 1)]) else None
  {
  }

  method SkipDigits(c: Classes, token: string, from: nat) returns (e: nat)
    requires from <= |token|
    ensures e == DigitsEnd(c, token, from)
  {
    e := from;
    while e < |token| && c.digit(token[e])
      invariant from <= e <= |token| && DigitsEnd(c, token, e) == DigitsEnd(c, token, from)
    {
      e := e + 1;
    }
  }

  // ---- Every result is a piece of the token ----

  /** The location sits at the colon e: a contiguous piece less trailing punctuation, then the line, then the column. */
  ghost predicate SitsAt(c: Classes, token: string, r: Location, s: nat, e: nat) {
    && s <= e < |token| && token[e] == ':'
    && r.file == RStrip(token[s..e]) && Supported(c, r.file)
    && r.line != "" && e + 1 + |r.line| == DigitsEnd(c, token, e + 1) && r.line == token[e + 1..e + 1 + |r.line|]
    && r.column == ColumnAt(c, token, e + 1 + |r.line|)
  }

  /** From index i on, the result lies before every restart point or starts behind it. */
  ghost predicate Clear(c: Classes, token: string, s: nat, e: nat, i: nat) {
    forall k :: i <= k < |token| && Restarts(c, token, k) ==> e < k || s > k
  }

  lemma ClearFromEarlier(c: Classes, token: string, s: nat, e: nat, i: nat, later: nat)
    requires Clear(c, token, s, e, later) && forall k :: i <= k < later && k < |token| && Restarts(c, token, k) ==> s > k
    ensures Clear(c, token, s, e, i)
  {
  }

  lemma {:induction false} ScanFindsPiece(c: Classes, token: string, start: nat, i: nat, url: bool) returns (s: nat, e: nat)
    requires Sane(c) && start <= i && Scan(c, token, start, i, url).Some?
    ensures start <= s && i <= e && SitsAt(c, token, Scan(c, token, start, i, url).value, s, e)
    ensures Clear(c, token, s, e, i)
    decreases |token| - i
  {
    hide Supported, StartsExplicit, ColumnAt, Clear, SitsAt;
    var later := i + 1;
    if Restarts(c, token, i) {
      s, e := ScanFindsPiece(c, token, i + 1, i + 1, false);
    } else if token[i] != ':' {
      s, e := ScanFindsPiece(c, token, start, i + 1, url);
    } else if !DriveColon(c, token, start, i) && StartsWith(token, "//", i + 1) {
      assert token[i + 1] == token[i + 1..i + 3][0] == '/' && token[i + 2] == token[i + 1..i + 3][1] == '/';
      later := i + 3;
      s, e := ScanFindsPiece(c, token, start, later, true);
    } else if i + 1 >= |token| || !c.digit(token[i + 1]) {
      s, e := ScanFindsPiece(c, token, if DriveColon(c, token, start, i) then start else i + 1, i + 1, url);
    } else if !url && Supported(c, RStrip(token[start..i])) {
      s, e := start, i;
      FoundSits(c, token, start, i, url);
      return;
    } else {
      later := DigitsEnd(c, token, i + 1);
      s, e := ScanFindsPiece(c, token, i + 1, later, url);
    }
    ClearFromEarlier(c, token, s, e, i, later);
  }

  lemma FoundSits(c: Classes, token: string, start: nat, i: nat, url: bool)
    requires start <= i < |token| && token[i] == ':' && !Restarts(c, token, i)
    requires i + 1 < |token| && c.digit(token[i + 1]) && !url && Supported(c, RStrip(token[start..i]))
    requires !StartsWith(token, "//", i + 1) || DriveColon(c, token, start, i)
    ensures SitsAt(c, token, Scan(c, token, start, i, url).value, start, i) && Clear(c, token, start, i, i)
  {
    hide Supported, StartsExplicit, ColumnAt;
  }

  /**
   On every token the scan ends, and a returned file is a contiguous piece of the token, stripped of
   trailing punctuation only, directly before the colon of the returned line and column.
   */
  lemma ParseFindsPiece(c: Classes, token: string)
    requires Sane(c)
    ensures Parse(c, token).Some? ==> exists s: nat, e: nat :: SitsAt(c, token, Parse(c, token).value, s, e)
  {
    if Parse(c, token).Some? {
      var s, e := ScanFindsPiece(c, token, 0, 0, false);
    }
  }

  // ---- Parsing inverts printing ----

  function Print(r: Location): string {
    r.file + ":" + r.line + if r.column.Some? then ":" + r.column.value else ""
  }

  predicate AllDigits(c: Classes, s: string) { s != "" && forall k :: 0 <= k < |s| ==> c.digit(s[k]) }

  /** What a caller can check of a path: supported, no trailing punctuation, no boundary before an explicit path. */
  predicate Printable(c: Classes, path: string) {
    && Supported(c, path) && !Trailing(path[|path| - 1])
    && forall k :: 0 <= k < |path| ==> !Restarts(c, path, k)
  }

  predicate Numbered(c: Classes, r: Location) {
    AllDigits(c, r.line) && (r.column.Some? ==> AllDigits(c, r.column.value))
  }

  /** A printed location, taken apart: the path, a colon, and digits up to the end or a second colon. */
  ghost predicate Printed(c: Classes, r: Location, token: string) {
    && Sane(c) && Numbered(c, r) && token == Print(r)
  }

  lemma {:induction false} DigitsEndIs(c: Classes, token: string, i: nat, e: nat)
    requires i <= e <= |token| && (forall k :: i <= k < e ==> c.digit(token[k])) && (e < |token| ==> !c.digit(token[e]))
    ensures DigitsEnd(c, token, i) == e
    decreases e - i
  {
    if i < e { DigitsEndIs(c, token, i + 1, e); }
  }

  lemma PrintedParts(c: Classes, r: Location, token: string)
    requires Printed(c, r, token)
    ensures var n, e := |r.file|, |r.file| + 1 + |r.line|;
            && n + 1 < e <= |token| && token[..n] == r.file && token[n] == ':' && token[n + 1..e] == r.line && c.digit(token[n + 1])
            && DigitsEnd(c, token, n + 1) == e
            && (r.column.None? ==> e == |token|)
            && (r.column.Some? ==> e + 1 < |token| && token[e] == ':' && token[e + 1..] == r.column.value
                                   && DigitsEnd(c, token, e + 1) == |token|)
            && ColumnAt(c, token, e) == r.column
            && (forall k :: n < k < |token| && token[k] == ':' ==> k == e && r.column.Some?)
  {
    hide Boundary, Trailing, DigitsEnd;
    var n, e := |r.file|, |r.file| + 1 + |r.line|;
    PrintedText(r, token);
    DigitsEndIs(c, token, n + 1, e);
    if r.column.Some? {
      DigitsEndIs(c, token, e + 1, |token|);
    }
  }

  /** Where the characters of a printed location stand. */
  lemma PrintedText(r: Location, token: string)
    requires token == Print(r)
    ensures var n, e := |r.file|, |r.file| + 1 + |r.line|;
            && e <= |token| && token[..n] == r.file && token[n] == ':' && token[n + 1..e] == r.line
            && (forall k :: n < k < e ==> token[k] == r.line[k - n - 1])
            && (r.column.None? ==> e == |token|)
            && (r.column.Some? ==> e < |token| == e + 1 + |r.column.value| && token[e] == ':' && token[e + 1..] == r.column.value
                                   && token[e + 1..|token|] == r.column.value
                                   && forall k :: e < k < |token| ==> token[k] == r.column.value[k - e - 1])
  {
  }

  lemma ExplicitAt(c: Classes, t: string, i: nat)
    ensures StartsExplicit(c, t, i) <==> ExplicitFrom(c, t, i)
  {
    assert StartsWith(t, "/", i) <==> i < |t| && t[i] == '/';
    assert StartsWith(t, "./", i) <==> i + 1 < |t| && t[i] == '.' && t[i + 1] == '/' by {
      if i + 1 < |t| { assert t[i..i + 2] == [t[i], t[i + 1]]; }
    }
    assert StartsWith(t, "../", i) <==> i + 2 < |t| && t[i] == '.' && t[i + 1] == '.' && t[i + 2] == '/' by {
      if i + 2 < |t| { assert t[i..i + 3] == [t[i], t[i + 1], t[i + 2]]; }
    }
  }

  /** What follows a printed path cannot complete an explicit path, so restart points are those of the path. */
  lemma RestartsAreThePaths(c: Classes, r: Location, token: string, k: nat)
    requires Printed(c, r, token) && k < |r.file|
    ensures k < |token| && (Restarts(c, token, k) <==> Restarts(c, r.file, k))
  {
    hide StartsExplicit, DigitsEnd, ColumnAt, Print, Numbered;
    PrintedParts(c, r, token);
    var n := |r.file|;
    assert forall j :: 0 <= j < n ==> token[j] == token[..n][j] == r.file[j];
    ExplicitAt(c, token, k + 1);
    ExplicitAt(c, r.file, k + 1);
    assert !Slash(token[n]) && token[n] != '.' && !c.alpha(token[n]) && !Slash(token[n + 1]);
  }

  /** Nothing before the path's end stops the scan: no colon, no restart. */
  lemma {:induction false} ScanOverPath(c: Classes, r: Location, token: string, i: nat)
    requires Printed(c, r, token) && Printable(c, r.file) && i <= |r.file| && ':' !in r.file[i..]
    ensures Scan(c, token, 0, i, false) == Scan(c, token, 0, |r.file|, false)
    decreases |r.file| - i
  {
    hide Supported, Restarts, DigitsEnd, ColumnAt, RStrip;
    PrintedParts(c, r, token);
    if i < |r.file| {
      RestartsAreThePaths(c, r, token, i);
      assert token[i] == token[..|r.file|][i] == r.file[i..][0];
      assert r.file[i..][1..] == r.file[i + 1..];
      ScanOverPath(c, r, token, i + 1);
    }
  }

  lemma NoSlashes(token: string, i: nat)
    requires i < |token| && token[i] != '/'
    ensures !StartsWith(token, "//", i)
  {
    assert i + 2 <= |token| ==> token[i..i + 2][0] == token[i];
  }

  lemma ScanAtColon(c: Classes, r: Location, token: string)
    requires Printed(c, r, token) && Printable(c, r.file)
    ensures Scan(c, token, 0, |r.file|, false) == Some(r)
  {
    hide Supported, StartsExplicit, ColumnAt;
    PrintedParts(c, r, token);
    var n := |r.file|;
    assert token[0..n] == r.file;
    assert RStrip(r.file) == r.file;
    assert token[n + 1] != '/' && token[n + 1] != '\\';
    assert !Restarts(c, token, n) && !DriveColon(c, token, 0, n);
    NoSlashes(token, n + 1);
  }

  lemma PrintableParses(c: Classes, r: Location)
    requires Sane(c) && Numbered(c, r) && Printable(c, r.file)
    ensures Parse(c, Print(r)) == Some(r)
  {
    var token, path := Print(r), r.file;
    ScanAtColon(c, r, token);
    if ':' in path {
      PrintedParts(c, r, token);
      assert forall j :: 0 <= j < |path| ==> token[j] == token[..|path|][j] == path[j];
      RestartsAreThePaths(c, r, token, 0);
      RestartsAreThePaths(c, r, token, 1);
      ScanOverPath(c, r, token, 2);
      assert DriveColon(c, token, 0, 1);
      hide StartsExplicit, Supported;
      assert Scan(c, token, 0, 1, false) == Scan(c, token, 0, 2, false);
      assert Scan(c, token, 0, 0, false) == Scan(c, token, 0, 1, false);
    } else {
      ScanOverPath(c, r, token, 0);
    }
  }

  lemma ParsedIsPrintable(c: Classes, r: Location)
    requires Sane(c) && Numbered(c, r) && Parse(c, Print(r)) == Some(r)
    ensures Printable(c, r.file)
  {
    hide StartsExplicit, Scan, Contains;
    var token := Print(r);
    PrintedParts(c, r, token);
    var s, e := ScanFindsPiece(c, token, 0, 0, false);
    var n := |r.file|;
    assert n <= e - s;
    if s > 0 { assert false; }
    forall k | 0 <= k < n ensures !Restarts(c, r.file, k) {
      RestartsAreThePaths(c, r, token, k);
    }
  }

  /** The same in characters. */
  lemma PrintableInCharacters(c: Classes, path: string)
    ensures Printable(c, path) <==>
              && path != "" && path[|path| - 1] !in ".,;])}>"
              && (forall k :: 0 <= k < |path| - 2 && path[k] == ':' ==> path[k + 1] != '/' || path[k + 2] != '/')
              && (':' in path ==> |path| >= 3 && c.alpha(path[0]) && path[1] == ':' && path[2] in "/\\" && ':' !in path[2..])
              && (forall k :: 0 <= k < |path| && path[k] in ",;[<{" ==> !ExplicitFrom(c, path, k + 1))
  {
    hide StartsExplicit, Contains;
    UrlInside(path);
    forall k | 0 <= k < |path| ensures Restarts(c, path, k) <==> path[k] in ",;[<{" && ExplicitFrom(c, path, k + 1) {
      ExplicitAt(c, path, k + 1);
    }
  }

  lemma UrlInside(s: string)
    ensures Contains(s, "://") <==> exists k :: 0 <= k < |s| - 2 && s[k] == ':' && s[k + 1] == '/' && s[k + 2] == '/'
  {
    if i: nat :| i <= |s| && StartsWith(s, "://", i) {
      assert s[i..i + 3] == [s[i], s[i + 1], s[i + 2]];
    }
    if k :| 0 <= k < |s| - 2 && s[k] == ':' && s[k + 1] == '/' && s[k + 2] == '/' {
      assert s[k..k + 3] == [s[k], s[k + 1], s[k + 2]];
      assert StartsWith(s, "://", k);
    }
  }

  /** A slash, one or two dots and a slash, or a drive with its slash. */
  predicate ExplicitFrom(c: Classes, t: string, i: nat) {
    || (i < |t| && t[i] == '/')
    || (i + 1 < |t| && t[i] == '.' && t[i + 1] == '/')
    || (i + 2 < |t| && t[i] == '.' && t[i + 1] == '.' && t[i + 2] == '/')
    || (i + 2 < |t| && c.alpha(t[i]) && t[i + 1] == ':' && t[i + 2] in "/\\")
  }

  /**
   Parsing inverts printing exactly: path:line and path:line:col give back their parts if and only if the
   path is supported, does not end in stripped punctuation, and holds no boundary before an explicit path.
   */
  lemma RoundTripIff(c: Classes, r: Location)
    requires Sane(c) && Numbered(c, r)
    ensures Parse(c, Print(r)) == Some(r) <==> Printable(c, r.file)
  {
    if Printable(c, r.file) { PrintableParses(c, r); }
    if Parse(c, Print(r)) == Some(r) { ParsedIsPrintable(c, r); }
  }

  lemma UrlHasColon(s: string)
    requires Contains(s, "://")
    ensures ':' in s
  {
    var i: nat :| i <= |s| && StartsWith(s, "://", i);
    assert s[i] == s[i..i + 3][0];
  }

  /** In particular for any plain path: no colon (or a drive's), no boundary character, no trailing punctuation. */
  lemma PlainPathsRoundTrip(c: Classes, path: string, line: string, column: Option<string>)
    requires Sane(c) && Numbered(c, Location(path, line, column))
    requires path != "" && path[|path| - 1] !in ".,;])}>" && forall k :: 0 <= k < |path| ==> path[k] !in ",;[<{"
    requires ':' !in path || (|path| >= 3 && c.alpha(path[0]) && path[1] == ':' && path[2] in "/\\" && ':' !in path[2..] && !Contains(path, "://"))
    ensures Parse(c, Print(Location(path, line, column))) == Some(Location(path, line, column))
  {
    if Contains(path, "://") { UrlHasColon(path); }
    RoundTripIff(c, Location(path, line, column));
  }
}
