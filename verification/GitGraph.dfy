/**
 Git history as the recovery checks see it: a finite commit graph with a tree at every commit, and the
 comparison service that reports merge base, ahead and behind counts and a bounded list of files.
 */
module GitGraph {
  import opened LogStore

  type Sha = string
  type Path = string
  type Blob = string
  type Tree = map<Path, Blob>

  datatype Commit = Commit(parents: set<Sha>, tree: Tree)

  /** `generation` is any numbering that grows from parent to child; every finite history has one. */
  datatype Repo = Repo(commits: map<Sha, Commit>, generation: map<Sha, nat>)

  ghost predicate WellFormed(g: Repo) {
    && g.generation.Keys == g.commits.Keys
    && forall c, p :: c in g.commits && p in g.commits[c].parents ==> p in g.commits && g.generation[p] < g.generation[c]
  }

  // ---- Ancestry ----

  /** The commits reachable from c, c included. */
  ghost function Ancestors(g: Repo, c: Sha): set<Sha>
    requires WellFormed(g) && c in g.commits
    decreases g.generation[c]
  {
    {c} + set p, a | p in g.commits[c].parents && a in Ancestors(g, p) :: a
  }

  ghost predicate IsAncestor(g: Repo, a: Sha, c: Sha)
    requires WellFormed(g) && c in g.commits
  {
    a in Ancestors(g, c)
  }

  ghost predicate StrictAncestor(g: Repo, a: Sha, c: Sha)
    requires WellFormed(g) && c in g.commits
  {
    a != c && a in Ancestors(g, c)
  }

  lemma {:induction false} AncestorsAreOlder(g: Repo, a: Sha, c: Sha)
    requires WellFormed(g) && c in g.commits && a in Ancestors(g, c)
    ensures a in g.commits
    ensures a == c || g.generation[a] < g.generation[c]
    decreases g.generation[c]
  {
    if a != c {
      var p :| p in g.commits[c].parents && a in Ancestors(g, p);
      AncestorsAreOlder(g, a, p);
    }
  }

  lemma {:induction false} AncestorsAreNested(g: Repo, a: Sha, c: Sha)
    requires WellFormed(g) && c in g.commits && a in Ancestors(g, c)
    ensures a in g.commits && Ancestors(g, a) <= Ancestors(g, c)
    decreases g.generation[c]
  {
    AncestorsAreOlder(g, a, c);
    if a != c {
      var p :| p in g.commits[c].parents && a in Ancestors(g, p);
      AncestorsAreNested(g, a, p);
      forall k | k in Ancestors(g, a) ensures k in Ancestors(g, c) {
        assert k in Ancestors(g, p);
      }
    }
  }

  // ---- Merge bases ----

  ghost function Common(g: Repo, a: Sha, b: Sha): set<Sha>
    requires WellFormed(g) && a in g.commits && b in g.commits
  {
    Ancestors(g, a) * Ancestors(g, b)
  }

  /** A merge base: a common ancestor that no other common ancestor descends from. */
  ghost predicate IsMergeBase(g: Repo, a: Sha, b: Sha, m: Sha)
    requires WellFormed(g) && a in g.commits && b in g.commits
  {
    m in Common(g, a, b) && forall k :: k in Common(g, a, b) && k in g.commits && k != m ==> m !in Ancestors(g, k)
  }

  /** When one side is an ancestor of the other it is their only merge base. */
  lemma MergeBaseOfAncestor(g: Repo, a: Sha, b: Sha, m: Sha)
    requires WellFormed(g) && a in g.commits && b in g.commits && a in Ancestors(g, b)
    ensures IsMergeBase(g, a, b, m) <==> m == a
    ensures IsMergeBase(g, b, a, m) <==> m == a
  {
    assert a in Common(g, a, b) && a in Common(g, b, a);
    forall k | k in Ancestors(g, a) && k != a ensures k in g.commits && a !in Ancestors(g, k) {
      AncestorsAreOlder(g, k, a);
      if a in Ancestors(g, k) { AncestorsAreOlder(g, a, k); }
    }
    assert Common(g, a, b) == Common(g, b, a);
  }

  /** A merge base is one of the two commits exactly when that commit is an ancestor of the other. */
  lemma MergeBaseIsSide(g: Repo, a: Sha, b: Sha, m: Sha)
    requires WellFormed(g) && a in g.commits && b in g.commits && IsMergeBase(g, a, b, m)
    ensures m == a <==> a in Ancestors(g, b)
    ensures m == b <==> b in Ancestors(g, a)
  {
    if a in Ancestors(g, b) { MergeBaseOfAncestor(g, a, b, m); }
    if b in Ancestors(g, a) { MergeBaseOfAncestor(g, b, a, m); }
  }

  // ---- Ahead and behind ----

  ghost function Ahead(g: Repo, a: Sha, b: Sha): nat
    requires WellFormed(g) && a in g.commits && b in g.commits
  {
    |Ancestors(g, b) - Ancestors(g, a)|
  }

  /** b has nothing that a lacks exactly when b is an ancestor of a. */
  lemma AheadIsZero(g: Repo, a: Sha, b: Sha)
    requires WellFormed(g) && a in g.commits && b in g.commits
    ensures Ahead(g, a, b) == 0 <==> b in Ancestors(g, a)
  {
    if b in Ancestors(g, a) {
      AncestorsAreNested(g, b, a);
      assert Ancestors(g, b) - Ancestors(g, a) == {};
    } else {
      assert b in Ancestors(g, b) - Ancestors(g, a);
    }
  }

  // ---- The comparison service ----

  const FILE_LIMIT := 300

  /** One listed file; a rename also names the path it left. */
  datatype FileItem = FileItem(name: Path, previous: Option<Path>)

  datatype Comparison = Comparison(mergeBase: Sha, ahead: nat, behind: nat, files: seq<FileItem>)

  /** What the service answers for a base and a head; None stands for an error. */
  type Oracle = (Sha, Sha) -> Option<Comparison>

  function Named(files: seq<FileItem>): set<Path> {
    (set f | f in files :: f.name) + (set f | f in files && f.previous.Some? :: f.previous.value)
  }

  function At(t: Tree, p: Path): Option<Blob> { if p in t then Some(t[p]) else None }

  function Differing(s: Tree, t: Tree): set<Path> {
    set p | p in s.Keys + t.Keys && At(s, p) != At(t, p)
  }

  lemma DiffersAt(s: Tree, t: Tree, p: Path)
    ensures p in Differing(s, t) <==> At(s, p) != At(t, p)
  {
  }

  /** The listing names every path that differs, renames on both sides, cut off at the limit. */
  ghost predicate Lists(files: seq<FileItem>, s: Tree, t: Tree) {
    && (|files| < FILE_LIMIT ==> Named(files) == Differing(s, t))
    && |files| <= FILE_LIMIT
  }

  /** An answer is true when it reports a merge base, both counts, and the three-dot file list. */
  ghost predicate TrueAnswer(g: Repo, a: Sha, b: Sha, c: Comparison)
    requires WellFormed(g) && a in g.commits && b in g.commits
  {
    && IsMergeBase(g, a, b, c.mergeBase) && c.mergeBase in g.commits
    && c.ahead == Ahead(g, a, b) && c.behind == Ahead(g, b, a)
    && Lists(c.files, g.commits[c.mergeBase].tree, g.commits[b].tree)
  }

  /** The service never lies; it may fail. */
  ghost predicate Truthful(g: Repo, compare: Oracle)
    requires WellFormed(g)
  {
    forall a, b {:trigger compare(a, b)} :: a in g.commits && b in g.commits && compare(a, b).Some? ==> TrueAnswer(g, a, b, compare(a, b).value)
  }

  /** The service answers every question about two related commits. */
  ghost predicate Answers(g: Repo, compare: Oracle)
    requires WellFormed(g)
  {
    forall a, b {:trigger compare(a, b)} :: a in g.commits && b in g.commits && Common(g, a, b) != {} ==> compare(a, b).Some?
  }

  lemma Told(g: Repo, compare: Oracle, a: Sha, b: Sha)
    requires WellFormed(g) && Truthful(g, compare) && a in g.commits && b in g.commits
    ensures compare(a, b).Some? ==> TrueAnswer(g, a, b, compare(a, b).value)
  {
  }

  /**
   Every true answer is coherent: the counts are zero or positive exactly as the merge base says, and the
   merge base equals the base with nothing behind if and only if the base is an ancestor of the head.
   */
  lemma AnswersAreCoherent(g: Repo, a: Sha, b: Sha, c: Comparison)
    requires WellFormed(g) && a in g.commits && b in g.commits && TrueAnswer(g, a, b, c)
    ensures (c.ahead > 0 <==> c.mergeBase != b) && (c.behind > 0 <==> c.mergeBase != a)
    ensures c.mergeBase == a <==> a in Ancestors(g, b)
    ensures c.mergeBase in Ancestors(g, a) && c.mergeBase in Ancestors(g, b)
  {
    MergeBaseIsSide(g, a, b, c.mergeBase);
    AheadIsZero(g, a, b);
    AheadIsZero(g, b, a);
  }

  // ---- The questions have answers ----

  lemma {:induction false} YoungestIsMergeBase(g: Repo, a: Sha, b: Sha, rows: set<Sha>) returns (m: Sha)
    requires WellFormed(g) && a in g.commits && b in g.commits && rows != {} && rows <= g.commits.Keys
    ensures m in rows && forall k :: k in rows && k != m ==> m !in Ancestors(g, k)
    ensures forall k :: k in rows ==> g.generation[k] <= g.generation[m]
    decreases |rows|
  {
    m :| m in rows;
    var rest := rows - {m};
    if rest != {} {
      var other := YoungestIsMergeBase(g, a, b, rest);
      if g.generation[m] < g.generation[other] { m := other; }
    }
    forall k | k in rows && k != m ensures m !in Ancestors(g, k) {
      if m in Ancestors(g, k) { AncestorsAreOlder(g, m, k); }
    }
  }

  lemma {:induction false} ListingExists(paths: set<Path>) returns (files: seq<FileItem>)
    ensures Named(files) == paths && |files| == |paths|
  {
    if paths == {} {
      files := [];
    } else {
      var p :| p in paths;
      var rest := ListingExists(paths - {p});
      files := rest + [FileItem(p, None)];
      NamedAppend(rest, p);
    }
  }

  lemma NamedAppend(files: seq<FileItem>, p: Path)
    ensures Named(files + [FileItem(p, None)]) == Named(files) + {p}
  {
    var all := files + [FileItem(p, None)];
    assert all[|files|] == FileItem(p, None);
    forall f ensures f in all <==> f in files || f == FileItem(p, None) {
    }
  }

  /** Two related commits always have a true answer, whatever their trees: the service can be honest. */
  lemma TrueAnswerExists(g: Repo, a: Sha, b: Sha) returns (c: Comparison)
    requires WellFormed(g) && a in g.commits && b in g.commits && Common(g, a, b) != {}
    ensures TrueAnswer(g, a, b, c)
  {
    forall k | k in Common(g, a, b) ensures k in g.commits { AncestorsAreOlder(g, k, a); }
    var m := YoungestIsMergeBase(g, a, b, Common(g, a, b));
    var files := ListingExists(Differing(g.commits[m].tree, g.commits[b].tree));
    c := Comparison(m, Ahead(g, a, b), Ahead(g, b, a), if |files| < FILE_LIMIT then files else files[..FILE_LIMIT]);
  }
}
