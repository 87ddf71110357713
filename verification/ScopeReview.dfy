/**
 The Workspace scope check of both recoveries: changed paths outside the declared scope must be reviewed
 exactly, and the reviewed paths are then added to the scope.
 */
module ScopeReview {
  import opened LogStore
  import opened GitGraph
  import opened DriftRecovery
  import opened Strings

  // ---- fnmatchcase ----

  /** The index of the bracket that closes a class, from j on. */
  function FindClose(p: string, j: nat): (r: Option<nat>)
    ensures r.Some? ==> j <= r.value < |p| && p[r.value] == ']'
    decreases |p| - j
  {
    if j >= |p| then None else if p[j] == ']' then Some(j) else FindClose(p, j + 1)
  }

  /** Where the class that starts a pattern ends; a bracket in first place belongs to the class. */
  function ClassClose(p: string): (r: Option<nat>)
    requires p != ""
    ensures r.Some? ==> 1 <= r.value < |p|
  {
    var j := if |p| > 1 && p[1] == '!' then 2 else 1;
    FindClose(p, if j < |p| && p[j] == ']' then j + 1 else j)
  }

  /** Single characters and ranges; a range whose bounds are reversed is empty. */
  predicate InItems(items: string, c: char) {
    if items == "" then false
    else if |items| >= 3 && items[1] == '-' then items[0] <= c <= items[2] || InItems(items[3..], c)
    else c == items[0] || InItems(items[1..], c)
  }

  predicate InClass(items: string, c: char) {
    if items != "" && items[0] == '!' then !InItems(items[1..], c) else InItems(items, c)
  }

  /** The pattern matches the whole name. An unclosed bracket stands for itself. */
  predicate Fnmatch(name: string, p: string)
    decreases |name| + |p|
  {
    if p == "" then name == ""
    else if p[0] == '*' then Fnmatch(name, p[1..]) || (name != "" && Fnmatch(name[1..], p))
    else if name == "" then false
    else if p[0] == '?' then Fnmatch(name[1..], p[1..])
    else if p[0] == '[' && ClassClose(p).Some? then
      InClass(p[1..ClassClose(p).value], name[0]) && Fnmatch(name[1..], p[ClassClose(p).value + 1..])
    else name[0] == p[0] && Fnmatch(name[1..], p[1..])
  }

  /** Without brackets a pattern matches the name that reads like it. */
  lemma {:induction false} StarsMatchThemselves(p: string)
    requires '[' !in p
    ensures Fnmatch(p, p)
  {
    if p != "" {
      StarsMatchThemselves(p[1..]);
      if p[0] == '*' { StarEatsOne(p, p[1..]); }
    }
  }

  lemma StarEatsOne(name: string, p: string)
    requires name != "" && Fnmatch(name[1..], p)
    ensures Fnmatch(name, "*" + p)
  {
    var star := "*" + p;
    assert star[1..] == p;
    assert Fnmatch(name[1..], star);
  }

  predicate Plain(s: string) { '*' !in s && '?' !in s && '[' !in s }

  lemma {:induction false} PlainMatchesItself(name: string, p: string)
    requires Plain(p)
    ensures Fnmatch(name, p) <==> name == p
  {
    if p != "" && name != "" {
      PlainMatchesItself(name[1..], p[1..]);
      assert name == [name[0]] + name[1..] && p == [p[0]] + p[1..];
    }
  }

  /** A star stands for any text, slashes included, so a star behind a directory covers all depths. */
  lemma {:induction false} StarIsExact(name: string, a: string, b: string)
    requires Plain(a) && Plain(b)
    ensures Fnmatch(name, a + "*" + b) <==> |a| + |b| <= |name| && a <= name && name[|name| - |b|..] == b
    decreases |a|, |name|
  {
    var p := a + "*" + b;
    if a == "" {
      assert p[1..] == b;
      PlainMatchesItself(name, b);
      if name != "" { StarIsExact(name[1..], a, b); }
    } else {
      assert p[1..] == a[1..] + "*" + b;
      if name != "" {
        StarIsExact(name[1..], a[1..], b);
        assert a <= name <==> a[0] == name[0] && a[1..] <= name[1..];
      }
    }
  }

  // ---- scope_path_matches ----

  predicate IsSlash(c: char) { c == '/' }

  function TrimLeft(s: string, drop: char -> bool): string {
    if s != "" && drop(s[0]) then TrimLeft(s[1..], drop) else s
  }

  function TrimRight(s: string, drop: char -> bool): string {
    if s != "" && drop(s[|s| - 1]) then TrimRight(s[..|s| - 1], drop) else s
  }

  function Trim(s: string, drop: char -> bool): string { TrimRight(TrimLeft(s, drop), drop) }

  /** str.strip().strip("/"). */
  function Strip(s: string): string { Trim(Trim(s, IsSpace), IsSlash) }

  predicate HasMagic(s: string) { exists k :: 0 <= k < |s| && (s[k] == '*' || s[k] == '?' || s[k] == '[') }

  predicate Matches(path: Path, declaration: string) {
    var candidate, declared := Strip(path), Strip(declaration);
    && candidate != "" && declared != ""
    && if HasMagic(declared) then Fnmatch(candidate, declared) else candidate == declared || declared + "/" <= candidate
  }

  // ---- What a declaration covers, in characters ----

  lemma {:induction false} TrimLeftIs(before: string, s: string, drop: char -> bool)
    requires (forall k :: 0 <= k < |before| ==> drop(before[k])) && (s == "" || !drop(s[0]))
    ensures TrimLeft(before + s, drop) == s
  {
    if before == "" {
      assert before + s == s;
    } else {
      assert (before + s)[1..] == before[1..] + s;
      TrimLeftIs(before[1..], s, drop);
    }
  }

  lemma {:induction false} TrimRightIs(s: string, after: string, drop: char -> bool)
    requires (forall k :: 0 <= k < |after| ==> drop(after[k])) && (s == "" || !drop(s[|s| - 1]))
    ensures TrimRight(s + after, drop) == s
  {
    if after == "" {
      assert s + after == s;
    } else {
      var n := |after| - 1;
      assert (s + after)[..|s| + n] == s + after[..n];
      TrimRightIs(s, after[..n], drop);
    }
  }

  lemma TrimIs(before: string, s: string, after: string, drop: char -> bool)
    requires forall k :: 0 <= k < |before| ==> drop(before[k])
    requires forall k :: 0 <= k < |after| ==> drop(after[k])
    requires s != "" && !drop(s[0]) && !drop(s[|s| - 1])
    ensures Trim(before + s + after, drop) == s
  {
    assert before + s + after == before + (s + after);
    TrimLeftIs(before, s + after, drop);
    TrimRightIs(s, after, drop);
  }

  /** Blanks around a path, and slashes inside them, do not count. */
  lemma StripIs(blanks: string, slashes: string, s: string, moreSlashes: string, moreBlanks: string)
    requires forall k :: 0 <= k < |blanks| ==> blanks[k] == ' ' || blanks[k] == '\n'
    requires forall k :: 0 <= k < |moreBlanks| ==> moreBlanks[k] == ' ' || moreBlanks[k] == '\n'
    requires forall k :: 0 <= k < |slashes| ==> slashes[k] == '/'
    requires forall k :: 0 <= k < |moreSlashes| ==> moreSlashes[k] == '/'
    requires s != "" && !IsSpace(s[0]) && !IsSpace(s[|s| - 1]) && s[0] != '/' && s[|s| - 1] != '/'
    ensures Strip(blanks + slashes + s + moreSlashes + moreBlanks) == s
  {
    hide Trim;
    var inner := slashes + s + moreSlashes;
    assert blanks + slashes + s + moreSlashes + moreBlanks == blanks + inner + moreBlanks;
    assert inner[0] == if slashes == "" then s[0] else '/' by { if slashes != "" { assert inner[0] == slashes[0]; } }
    assert inner[|inner| - 1] == if moreSlashes == "" then s[|s| - 1] else '/' by {
      if moreSlashes != "" { assert inner[|inner| - 1] == moreSlashes[|moreSlashes| - 1]; }
    }
    TrimIs(blanks, inner, moreBlanks, IsSpace);
    TrimIs(slashes, s, moreSlashes, IsSlash);
  }

  /**
   A declaration without *, ? and [ covers the path it names and what lies below it behind a slash, and
   nothing else; one with such a character covers what it matches as a pattern.
   */
  lemma CoverageIsExact(p: Path, d: string)
    requires p != "" && d != "" && Strip(p) == p && Strip(d) == d
    ensures '*' !in d && '?' !in d && '[' !in d ==> (Matches(p, d) <==> p == d || (|p| > |d| && p[..|d|] == d && p[|d|] == '/'))
    ensures '*' in d || '?' in d || '[' in d ==> (Matches(p, d) <==> Fnmatch(p, d))
  {
    hide Strip, Fnmatch;
    assert HasMagic(d) <==> '*' in d || '?' in d || '[' in d;
    assert d + "/" <= p <==> |p| > |d| && p[..|d|] == d && p[|d|] == '/' by {
      if |p| > |d| { assert p[..|d| + 1] == p[..|d|] + [p[|d|]]; }
    }
  }

  function Declared(scope: seq<string>): seq<string> {
    if scope == [] then []
    else
      var rest := Declared(scope[..|scope| - 1]);
      var d := Strip(scope[|scope| - 1]);
      if d == "" then rest else rest + [d]
  }

  predicate Covered(declared: seq<string>, p: Path) {
    exists d :: d in declared && Matches(p, d)
  }

  function NewPaths(reviewed: seq<Path>, scope: seq<string>): seq<Path> {
    if reviewed == [] then []
    else
      var rest := NewPaths(reviewed[..|reviewed| - 1], scope);
      var p := reviewed[|reviewed| - 1];
      if p in scope then rest else rest + [p]
  }

  /** The exact set of paths a review must name. Base sync leaves an undeclared scope open. */
  function Outside(scope: seq<string>, changed: set<Path>, openWhenUndeclared: bool): set<Path> {
    var declared := Declared(scope);
    if openWhenUndeclared && declared == [] then {} else set p | p in changed && !Covered(declared, p)
  }

  predicate Distinct(s: seq<Path>) { forall j, k :: 0 <= j < k < |s| ==> s[j] != s[k] }

  /** _verify_scope and _verify_base_sync_scope: the resulting scope when the review is exact. */
  function VerifyScope(scope: seq<string>, changed: set<Path>, reviewed: seq<Path>,
                       openWhenUndeclared: bool): Result<seq<string>> {
    if !Distinct(reviewed) || (set p | p in reviewed) != Outside(scope, changed, openWhenUndeclared) then Err(ScopeViolation)
    else Ok(scope + NewPaths(reviewed, scope))
  }

  // ---- What a review buys ----

  lemma {:induction false} NewPathsAre(reviewed: seq<Path>, scope: seq<string>, p: Path)
    ensures p in NewPaths(reviewed, scope) <==> p in reviewed && p !in scope
  {
    if reviewed != [] {
      var n := |reviewed| - 1;
      NewPathsAre(reviewed[..n], scope, p);
      assert reviewed == reviewed[..n] + [reviewed[n]];
    }
  }

  lemma {:induction false} DeclaredAre(scope: seq<string>, d: string)
    ensures d in Declared(scope) <==> d != "" && exists v :: v in scope && Strip(v) == d
  {
    if scope != [] {
      var n := |scope| - 1;
      DeclaredAre(scope[..n], d);
      assert scope == scope[..n] + [scope[n]];
    }
  }

  /** A declaration covers the very path it was made from. */
  predicate CoversItself(p: Path) { Strip(p) != "" && Matches(p, Strip(p)) }

  /** Some path of the review, once it is a declaration, covers p. */
  ghost predicate CoveredByReview(reviewed: seq<Path>, p: Path) {
    exists r :: r in reviewed && Strip(r) != "" && Matches(p, Strip(r))
  }

  lemma AfterReview(scope: seq<string>, changed: set<Path>, reviewed: seq<Path>, open: bool, p: Path)
    requires VerifyScope(scope, changed, reviewed, open).Ok? && (open ==> Declared(scope) != []) && p in changed
    ensures Covered(Declared(VerifyScope(scope, changed, reviewed, open).value), p)
       <==> p !in reviewed || CoveredByReview(reviewed, p)
  {
    hide Strip, Matches;
    var after := VerifyScope(scope, changed, reviewed, open).value;
    assert p in reviewed <==> p in Outside(scope, changed, open);
    if Covered(Declared(after), p) {
      var d :| d in Declared(after) && Matches(p, d);
      DeclaredAre(after, d);
      var v :| v in after && Strip(v) == d;
      DeclaredAre(scope, d);
      if v !in scope { NewPathsAre(reviewed, scope, v); }
    }
    if Covered(Declared(scope), p) {
      var d :| d in Declared(scope) && Matches(p, d);
      DeclaredAre(scope, d);
      DeclaredAre(after, d);
    } else if CoveredByReview(reviewed, p) {
      var r :| r in reviewed && Strip(r) != "" && Matches(p, Strip(r));
      NewPathsAre(reviewed, scope, r);
      DeclaredAre(after, Strip(r));
    }
  }

  /**
   A review settles the matter exactly when every reviewed path is covered by some reviewed path once these
   are declarations: then and only then the resulting scope covers every changed path, and verified again
   under it the same changes need no review.
   */
  lemma ReviewSettlesIff(scope: seq<string>, changed: set<Path>, reviewed: seq<Path>, open: bool)
    requires VerifyScope(scope, changed, reviewed, open).Ok? && (open ==> Declared(scope) != [])
    ensures var after := VerifyScope(scope, changed, reviewed, open).value;
            && ((forall p :: p in changed ==> Covered(Declared(after), p)) <==> forall p :: p in reviewed ==> CoveredByReview(reviewed, p))
            && (VerifyScope(after, changed, [], open) == Ok(after) <==> forall p :: p in reviewed ==> CoveredByReview(reviewed, p))
            && (VerifyScope(after, changed, [], open).Err? <==> exists p :: p in reviewed && !CoveredByReview(reviewed, p))
  {
    hide Covered, CoveredByReview;
    var after := VerifyScope(scope, changed, reviewed, open).value;
    forall p | p in changed ensures Covered(Declared(after), p) <==> p !in reviewed || CoveredByReview(reviewed, p) {
      AfterReview(scope, changed, reviewed, open, p);
    }
    forall p ensures p in reviewed ==> p in changed {
      assert p in reviewed <==> p in Outside(scope, changed, open);
    }
    if open {
      DeclaredStays(scope, NewPaths(reviewed, scope));
    }
    var none: seq<Path> := [];
    assert (set p | p in none) == {} && after + NewPaths(none, after) == after;
    assert Outside(after, changed, open) == {} <==> forall p :: p in changed ==> Covered(Declared(after), p) by {
      assert forall p :: p in Outside(after, changed, open) <==> p in changed && !Covered(Declared(after), p);
    }
  }

  lemma DeclaredStays(scope: seq<string>, more: seq<string>)
    requires Declared(scope) != []
    ensures Declared(scope + more) != []
  {
    var d := Declared(scope)[0];
    DeclaredAre(scope, d);
    DeclaredAre(scope + more, d);
  }

  /** For a path without surrounding blanks and slashes: it covers itself unless it is a pattern that does not match itself. */
  lemma CoversItselfIff(p: Path)
    requires p != "" && Strip(p) == p
    ensures CoversItself(p) <==> ('[' in p ==> Fnmatch(p, p))
  {
    if '[' !in p { StarsMatchThemselves(p); }
  }

  /** So a review without brackets always settles the matter. */
  lemma PlainReviewSettles(scope: seq<string>, changed: set<Path>, reviewed: seq<Path>, open: bool)
    requires VerifyScope(scope, changed, reviewed, open).Ok? && (open ==> Declared(scope) != [])
    requires forall p :: p in reviewed ==> p != "" && Strip(p) == p && '[' !in p
    ensures var after := VerifyScope(scope, changed, reviewed, open).value;
            VerifyScope(after, changed, [], open) == Ok(after)
  {
    hide Strip, VerifyScope, Matches;
    forall p | p in reviewed ensures CoveredByReview(reviewed, p) {
      CoversItselfIff(p);
    }
    ReviewSettlesIff(scope, changed, reviewed, open);
  }

  /** The matcher reads "[id]" as one letter of i and d, so the name does not match itself. */
  lemma BracketNameIsNoMatch()
    ensures !Fnmatch("[id]", "[id]")
  {
    var p := "[id]";
    assert FindClose(p, 1) == FindClose(p, 2) == FindClose(p, 3) == Some(3);
    assert ClassClose(p) == Some(3) && p[1..3] == "id";
    assert "id"[1..] == "d" && "d"[1..] == "";
    assert !InItems("d", '[') && !InItems("id", '[');
  }

  lemma FirstReview(p: Path)
    ensures VerifyScope([], {p}, [p], false) == Ok([p])
  {
    hide Strip, Matches, Declared, NewPaths, Outside;
    var none: seq<string> := [];
    OneNewPath(p);
    AllOutside(p);
    assert none + [p] == [p] && (set x | x in [p]) == {p};
  }

  lemma OneNewPath(p: Path)
    ensures NewPaths([p], []) == [p]
  {
    assert [p][..0] == [];
    assert NewPaths([p][..0], []) == [];
  }

  lemma AllOutside(p: Path)
    ensures Outside([], {p}, false) == {p}
  {
    hide Matches;
    assert forall x :: !Covered([], x);
  }

  /** A reviewed path that does not cover itself is accepted and added, and the next check refuses it again. */
  lemma UncoveredReviewRepeats(p: Path)
    requires p != "" && !CoversItself(p)
    ensures VerifyScope([], {p}, [p], false) == Ok([p])
    ensures VerifyScope([p], {p}, [], false).Err?
  {
    hide Strip, Matches;
    var none: seq<string> := [];
    assert !CoveredByReview([p], p) by {
      assert forall r :: r in [p] ==> r == p;
    }
    FirstReview(p);
    hide VerifyScope, CoveredByReview;
    ReviewSettlesIff(none, {p}, [p], false);
    assert p in [p];
  }

  /** Such a path exists: the next check demands the same review of "[id]" again. */
  lemma BracketPathIsNotCovered()
    ensures VerifyScope([], {"[id]"}, ["[id]"], false) == Ok(["[id]"])
    ensures VerifyScope(["[id]"], {"[id]"}, [], false).Err?
  {
    hide Fnmatch, Strip;
    var p := "[id]";
    assert p[0] == '[' && p[|p| - 1] == ']';
    StripKeeps(p);
    BracketNameIsNoMatch();
    CoversItselfIff(p);
    UncoveredReviewRepeats(p);
  }

  lemma StripKeeps(p: string)
    requires p != "" && !IsSpace(p[0]) && !IsSpace(p[|p| - 1]) && p[0] != '/' && p[|p| - 1] != '/'
    ensures Strip(p) == p
  {
  }
}
