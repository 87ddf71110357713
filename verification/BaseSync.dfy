/**
 Base synchronization recovery: adopting a HEAD that merged a newer base into a feature branch. The four
 trees are O (old base), N (new base), H0 (old task HEAD) and H1 (current HEAD).
 */
module BaseSync {
  import opened LogStore
  import opened GitGraph
  import opened DriftRecovery
  import opened ScopeReview

  // ---- _fresh_base_sync_github_identity ----

  /** One reading of the two branches. */
  datatype Reading = Reading(head: Option<Sha>, tree: string, base: Option<Sha>)

  function ReadIdentity(s: Reading, head: Sha, tree: string, base: Sha): Result<Sha> {
    if s.head.None? then Err(BranchDeleted)
    else if s.head.value != head then Err(HeadMismatch)
    else if s.tree != tree then Err(TreeMismatch)
    else if s.base != Some(base) then Err(BaseChanged)
    else Ok(base)
  }

  predicate ForwardOf(compare: Oracle, a: Sha, b: Sha) {
    compare(a, b).Some? && compare(a, b).value.mergeBase == a && compare(a, b).value.behind == 0
  }

  /** The live base, when the branch HEAD may keep `newBase` although the base branch went on. */
  function FreshIdentity(compare: Oracle, first: Reading, second: Reading, head: Sha, tree: string,
                         newBase: Sha): Result<Sha> {
    var r := ReadIdentity(first, head, tree, newBase);
    if r.Ok? then r
    else if r.error != BaseChanged || first.base.None? then r
    else
      var live := first.base.value;
      var again := ReadIdentity(second, head, tree, live);
      if again.Err? then again
      else if !ForwardOf(compare, newBase, live) || compare(newBase, live).value.ahead == 0 then Err(BaseChanged)
      else if !ForwardOf(compare, newBase, head) then Err(AncestryMismatch)
      else if compare(live, head).None? || compare(live, head).value.mergeBase != newBase then Err(AncestryMismatch)
      else Ok(live)
  }

  predicate Answered(compare: Oracle, a: Sha, b: Sha) { compare(a, b).Some? }

  /** A merge base of two commits is a forward ancestor of both, as the service reports it. */
  lemma MergeBaseIsForward(g: Repo, compare: Oracle, a: Sha, b: Sha, m: Sha)
    requires WellFormed(g) && Truthful(g, compare) && a in g.commits && b in g.commits && m in g.commits
    requires Answered(compare, a, b) && compare(a, b).value.mergeBase == m
    ensures Answered(compare, m, a) ==> ForwardOf(compare, m, a) && (compare(m, a).value.ahead > 0 <==> m != a)
    ensures Answered(compare, m, b) ==> ForwardOf(compare, m, b)
  {
    hide Ancestors, IsMergeBase, Ahead, Lists;
    Told(g, compare, a, b);
    AnswersAreCoherent(g, a, b, compare(a, b).value);
    Told(g, compare, m, a);
    if Answered(compare, m, a) { AnswersAreCoherent(g, m, a, compare(m, a).value); }
    Told(g, compare, m, b);
    if Answered(compare, m, b) { AnswersAreCoherent(g, m, b, compare(m, b).value); }
  }

  /**
   The identity check is exact: the live base is the selected one, or a second reading confirms the first
   and the selected base is the merge base of task and live base. Both ancestry checks follow from that.
   */
  lemma FreshIdentityIsExact(g: Repo, compare: Oracle, first: Reading, second: Reading, head: Sha, tree: string,
                             newBase: Sha)
    requires WellFormed(g) && Truthful(g, compare) && head in g.commits && newBase in g.commits
    requires first.base.Some? ==> first.base.value in g.commits
    ensures FreshIdentity(compare, first, second, head, tree, newBase).Ok?
       <==> (&& first.head == Some(head) && first.tree == tree && first.base.Some?
             && (first.base.value == newBase
                 || (var live := first.base.value;
                     && second == Reading(Some(head), tree, Some(live))
                     && Answered(compare, newBase, live) && Answered(compare, newBase, head)
                     && Answered(compare, live, head) && compare(live, head).value.mergeBase == newBase)))
    ensures FreshIdentity(compare, first, second, head, tree, newBase).Ok? ==>
              FreshIdentity(compare, first, second, head, tree, newBase).value == first.base.value
  {
    hide Truthful;
    if first.base.Some? && first.base.value != newBase && Answered(compare, first.base.value, head)
       && compare(first.base.value, head).value.mergeBase == newBase
    {
      MergeBaseIsForward(g, compare, first.base.value, head, newBase);
    }
  }

  // ---- _verify_base_sync_deltas ----

  /** The exact blob of a path at a commit; None when there is no such file. */
  type Reader = (Path, Sha) -> Option<Blob>

  ghost predicate ReadsTrees(g: Repo, blobAt: Reader) {
    forall p, c {:trigger blobAt(p, c)} :: c in g.commits ==> blobAt(p, c) == At(g.commits[c].tree, p)
  }

  /** _base_absorbed_path_evidence: the file exists and is the same in all three trees. */
  predicate Absorbed(blobAt: Reader, p: Path, oldHead: Sha, newBase: Sha, head: Sha) {
    blobAt(p, oldHead).Some? && blobAt(p, oldHead) == blobAt(p, newBase) == blobAt(p, head)
  }

  /** The accepted evidence: which mode, the four deltas, the overlap, and what scope must cover. */
  datatype SyncEvidence = SyncEvidence(
    ancestryBacked: bool, base: set<Path>, forward: set<Path>, newTask: set<Path>, oldTask: set<Path>,
    overlap: set<Path>, scope: set<Path>, imported: set<Path>)

  function SymmetricDifference(a: set<Path>, b: set<Path>): set<Path> { (a - b) + (b - a) }

  function Unexplained(blobAt: Reader, base: set<Path>, forward: set<Path>, newTask: set<Path>, oldTask: set<Path>,
                       oldHead: Sha, newBase: Sha, head: Sha): set<Path> {
    var absorbed := set p | p in oldTask - newTask - forward && p in base && Absorbed(blobAt, p, oldHead, newBase, head);
    SymmetricDifference(oldTask, newTask) - forward - absorbed
  }

  function VerifyDeltas(compare: Oracle, blobAt: Reader, treeMatches: bool, oldBase: Sha, newBase: Sha,
                        oldHead: Sha, head: Sha, reviewed: set<Path>): Result<SyncEvidence> {
    if !treeMatches then Err(AncestryMismatch)
    else
      var base := CompareDelta(compare, oldBase, newBase, true, false);
      var forward := CompareDelta(compare, oldHead, head, false, false);
      var newTask := CompareDelta(compare, newBase, head, false, false);
      var oldTask := CompareDelta(compare, oldBase, oldHead, false, true);
      if base.Err? then Err(base.error)
      else if forward.Err? then Err(forward.error)
      else if newTask.Err? then Err(newTask.error)
      else if oldTask.Err? then Err(oldTask.error)
      else Classify(blobAt, oldTask.value.verified, base.value.paths, forward.value.paths, newTask.value.paths,
                    oldTask.value.paths, oldHead, newBase, head, reviewed)
  }

  function Classify(blobAt: Reader, ancestryBacked: bool, base: set<Path>, forward: set<Path>, newTask: set<Path>,
                    oldTask: set<Path>, oldHead: Sha, newBase: Sha, head: Sha, reviewed: set<Path>): Result<SyncEvidence> {
    var overlap := oldTask * base + newTask * base;
    if overlap != reviewed then Err(BaseSyncOverlap)
    else if ancestryBacked && Unexplained(blobAt, base, forward, newTask, oldTask, oldHead, newBase, head) != {} then Err(TaskDiffMismatch)
    else Ok(SyncEvidence(ancestryBacked, base, forward, newTask, oldTask, overlap,
                         if ancestryBacked then forward - base else newTask, forward * base))
  }

  // ---- What acceptance means ----

  /** A request over real commits, with honest services. */
  ghost predicate Setting(g: Repo, compare: Oracle, blobAt: Reader, oldBase: Sha, newBase: Sha, oldHead: Sha, head: Sha) {
    && WellFormed(g) && Truthful(g, compare) && ReadsTrees(g, blobAt)
    && oldBase in g.commits && newBase in g.commits && oldHead in g.commits && head in g.commits
  }

  ghost function TreeOf(g: Repo, c: Sha): Tree
    requires c in g.commits
  {
    g.commits[c].tree
  }

  /** The four relations the check needs, and where its deltas come from. */
  ghost predicate ForwardRelations(g: Repo, compare: Oracle, oldBase: Sha, newBase: Sha, oldHead: Sha, head: Sha)
    requires WellFormed(g) && oldBase in g.commits && newBase in g.commits && oldHead in g.commits && head in g.commits
  {
    && StrictAncestor(g, oldBase, newBase) && IsAncestor(g, oldHead, head) && IsAncestor(g, newBase, head)
    && Bounded(compare, oldBase, newBase) && Bounded(compare, oldHead, head)
    && Bounded(compare, newBase, head) && Bounded(compare, oldBase, oldHead)
  }

  /** Where the historical delta is measured from: O itself when it is an ancestor of H0. */
  function Fork(compare: Oracle, oldBase: Sha, oldHead: Sha): Sha {
    if compare(oldBase, oldHead).Some? then compare(oldBase, oldHead).value.mergeBase else oldBase
  }

  lemma DeltasAreTreeDifferences(g: Repo, compare: Oracle, blobAt: Reader, treeMatches: bool, oldBase: Sha, newBase: Sha,
                                 oldHead: Sha, head: Sha, reviewed: set<Path>)
    requires Setting(g, compare, blobAt, oldBase, newBase, oldHead, head)
    ensures ForwardRelations(g, compare, oldBase, newBase, oldHead, head) ==> Fork(compare, oldBase, oldHead) in g.commits
    ensures var r := VerifyDeltas(compare, blobAt, treeMatches, oldBase, newBase, oldHead, head, reviewed);
            if treeMatches && ForwardRelations(g, compare, oldBase, newBase, oldHead, head)
            then r == Classify(blobAt, oldBase in Ancestors(g, oldHead),
                               Differing(TreeOf(g, oldBase), TreeOf(g, newBase)), Differing(TreeOf(g, oldHead), TreeOf(g, head)),
                               Differing(TreeOf(g, newBase), TreeOf(g, head)),
                               Differing(TreeOf(g, Fork(compare, oldBase, oldHead)), TreeOf(g, oldHead)),
                               oldHead, newBase, head, reviewed)
            else r.Err?
    ensures ForwardRelations(g, compare, oldBase, newBase, oldHead, head) && oldBase in Ancestors(g, oldHead) ==>
              Fork(compare, oldBase, oldHead) == oldBase
  {
    hide Truthful, Ancestors, Classify, IsMergeBase;
    CompareDeltaIsExact(g, compare, oldBase, newBase, true);
    CompareDeltaIsExact(g, compare, oldHead, head, false);
    CompareDeltaIsExact(g, compare, newBase, head, false);
    ClassificationIsExact(g, compare, oldBase, oldHead);
  }

  /** The base was really taken over on a path the branch left alone: it is not O's content, nor a mere deletion of it. */
  predicate TakenOver(o: Tree, n: Tree, h1: Tree, p: Path) {
    At(h1, p) != At(o, p) && (At(h1, p) == At(n, p) ==> At(h1, p).Some?)
  }

  lemma UnexplainedAt(blobAt: Reader, o: Tree, n: Tree, h0: Tree, h1: Tree, oldHead: Sha, newBase: Sha, head: Sha, p: Path)
    requires blobAt(p, oldHead) == At(h0, p) && blobAt(p, newBase) == At(n, p) && blobAt(p, head) == At(h1, p)
    ensures p in Unexplained(blobAt, Differing(o, n), Differing(h0, h1), Differing(n, h1), Differing(o, h0), oldHead, newBase, head)
       <==> p in Differing(o, n) && p !in Differing(h0, h1) && !TakenOver(o, n, h1, p)
  {
  }

  /**
   Acceptance is exact. The deltas are accepted if and only if the pinned tree matches, the relations hold
   below the file limit, the reviewed paths are exactly the overlap, and, when O is an ancestor of H0,
   every base-changed path that the branch did not touch since was really taken over.
   */
  lemma DeltasAreExact(g: Repo, compare: Oracle, blobAt: Reader, treeMatches: bool, oldBase: Sha, newBase: Sha,
                       oldHead: Sha, head: Sha, reviewed: set<Path>)
    requires Setting(g, compare, blobAt, oldBase, newBase, oldHead, head)
    ensures VerifyDeltas(compare, blobAt, treeMatches, oldBase, newBase, oldHead, head, reviewed).Ok?
       <==> (&& treeMatches && ForwardRelations(g, compare, oldBase, newBase, oldHead, head)
             && (forall p :: p in reviewed <==>
                   && At(TreeOf(g, oldBase), p) != At(TreeOf(g, newBase), p)
                   && (|| At(TreeOf(g, Fork(compare, oldBase, oldHead)), p) != At(TreeOf(g, oldHead), p)
                       || At(TreeOf(g, newBase), p) != At(TreeOf(g, head), p)))
             && (oldBase in Ancestors(g, oldHead) ==>
                   forall p :: At(TreeOf(g, oldBase), p) != At(TreeOf(g, newBase), p) && At(TreeOf(g, oldHead), p) == At(TreeOf(g, head), p) ==>
                     TakenOver(TreeOf(g, oldBase), TreeOf(g, newBase), TreeOf(g, head), p)))
  {
    hide Truthful, Ancestors, Unexplained, VerifyDeltas;
    DeltasAreTreeDifferences(g, compare, blobAt, treeMatches, oldBase, newBase, oldHead, head, reviewed);
    if treeMatches && ForwardRelations(g, compare, oldBase, newBase, oldHead, head) {
      var o, n, h0, h1 := TreeOf(g, oldBase), TreeOf(g, newBase), TreeOf(g, oldHead), TreeOf(g, head);
      var f := TreeOf(g, Fork(compare, oldBase, oldHead));
      var overlap := Differing(f, h0) * Differing(o, n) + Differing(n, h1) * Differing(o, n);
      assert forall p :: p in overlap <==> At(o, p) != At(n, p) && (At(f, p) != At(h0, p) || At(n, p) != At(h1, p));
      if oldBase in Ancestors(g, oldHead) {
        var odd := Unexplained(blobAt, Differing(o, n), Differing(h0, h1), Differing(n, h1), Differing(o, h0), oldHead, newBase, head);
        forall p ensures p in odd <==> At(o, p) != At(n, p) && At(h0, p) == At(h1, p) && !TakenOver(o, n, h1, p) {
          assert blobAt(p, oldHead) == At(h0, p) && blobAt(p, newBase) == At(n, p) && blobAt(p, head) == At(h1, p);
          UnexplainedAt(blobAt, o, n, h0, h1, oldHead, newBase, head, p);
        }
      }
    }
  }

  /**
   What accepted evidence says about every path, in the blobs of the trees. The scope check gets, when O is an
   ancestor of H0, what the branch changed since and the new base did not, else all that HEAD has beyond the
   new base; imported are the paths that both the new base and the branch changed since.
   */
  lemma EvidenceInTrees(g: Repo, compare: Oracle, blobAt: Reader, treeMatches: bool, oldBase: Sha, newBase: Sha,
                        oldHead: Sha, head: Sha, reviewed: set<Path>, p: Path)
    requires Setting(g, compare, blobAt, oldBase, newBase, oldHead, head)
    ensures var r := VerifyDeltas(compare, blobAt, treeMatches, oldBase, newBase, oldHead, head, reviewed);
            var o, n, h0, h1 := At(TreeOf(g, oldBase), p), At(TreeOf(g, newBase), p), At(TreeOf(g, oldHead), p), At(TreeOf(g, head), p);
            r.Ok? ==>
              && (r.value.ancestryBacked <==> oldBase in Ancestors(g, oldHead))
              && (p in r.value.scope <==> if oldBase in Ancestors(g, oldHead) then h0 != h1 && o == n else n != h1)
              && (p in r.value.imported <==> h0 != h1 && o != n)
              && (p in r.value.base <==> o != n) && (p in r.value.forward <==> h0 != h1) && (p in r.value.newTask <==> n != h1)
              && (p in r.value.overlap <==> p in reviewed)
              && (oldBase in Ancestors(g, oldHead) ==> (p in r.value.oldTask <==> o != h0))
  {
    hide Truthful, Ancestors, Unexplained, VerifyDeltas;
    DeltasAreTreeDifferences(g, compare, blobAt, treeMatches, oldBase, newBase, oldHead, head, reviewed);
  }

  /**
   Soundness of the review gate. In ancestry-backed mode every base-changed path absent from the forward
   delta was reviewed. In either mode a base-changed path carries the new base's content at HEAD or was
   reviewed; so does every forward path that is exempted from scope as imported.
   */
  lemma ReviewIsSound(g: Repo, compare: Oracle, blobAt: Reader, treeMatches: bool, oldBase: Sha, newBase: Sha,
                      oldHead: Sha, head: Sha, reviewed: set<Path>, p: Path)
    requires Setting(g, compare, blobAt, oldBase, newBase, oldHead, head)
    ensures var r := VerifyDeltas(compare, blobAt, treeMatches, oldBase, newBase, oldHead, head, reviewed);
            r.Ok? ==>
              && (r.value.ancestryBacked && p in r.value.base - r.value.forward ==> p in reviewed)
              && (p in r.value.base ==> At(TreeOf(g, head), p) == At(TreeOf(g, newBase), p) || p in reviewed)
              && (p in r.value.imported ==> At(TreeOf(g, head), p) == At(TreeOf(g, newBase), p) || p in reviewed)
  {
    hide Truthful, Ancestors, Unexplained, VerifyDeltas;
    DeltasAreTreeDifferences(g, compare, blobAt, treeMatches, oldBase, newBase, oldHead, head, reviewed);
  }

  /**
   When O is not an ancestor of H0, a base-changed path outside the forward delta escapes review exactly
   when HEAD has the new base's content and H0 has the fork's: the ancestry is what closes this case.
   */
  lemma WithoutAncestryReviewIff(g: Repo, compare: Oracle, blobAt: Reader, treeMatches: bool, oldBase: Sha, newBase: Sha,
                                 oldHead: Sha, head: Sha, reviewed: set<Path>, p: Path)
    requires Setting(g, compare, blobAt, oldBase, newBase, oldHead, head)
    ensures var r := VerifyDeltas(compare, blobAt, treeMatches, oldBase, newBase, oldHead, head, reviewed);
            var fork := Fork(compare, oldBase, oldHead);
            r.Ok? ==>
              && fork in g.commits
              && (p in r.value.base - r.value.forward ==>
                    (p !in reviewed <==> && At(TreeOf(g, head), p) == At(TreeOf(g, newBase), p)
                                         && At(TreeOf(g, fork), p) == At(TreeOf(g, oldHead), p)))
  {
    hide Truthful, Ancestors, Unexplained, VerifyDeltas;
    DeltasAreTreeDifferences(g, compare, blobAt, treeMatches, oldBase, newBase, oldHead, head, reviewed);
  }

  /**
   Nothing is smuggled in: whatever differs between the old and the current task HEAD is the new base's
   own content, was reviewed as overlap, or is among the paths handed to the scope check.
   */
  lemma NothingIsSmuggled(g: Repo, compare: Oracle, blobAt: Reader, treeMatches: bool, oldBase: Sha, newBase: Sha,
                          oldHead: Sha, head: Sha, reviewed: set<Path>, p: Path)
    requires Setting(g, compare, blobAt, oldBase, newBase, oldHead, head)
    ensures var r := VerifyDeltas(compare, blobAt, treeMatches, oldBase, newBase, oldHead, head, reviewed);
            r.Ok? && At(TreeOf(g, head), p) != At(TreeOf(g, oldHead), p) ==>
              || At(TreeOf(g, head), p) == At(TreeOf(g, newBase), p)
              || p in reviewed
              || p in r.value.scope
  {
    hide Truthful, Ancestors, Unexplained, VerifyDeltas;
    DeltasAreTreeDifferences(g, compare, blobAt, treeMatches, oldBase, newBase, oldHead, head, reviewed);
  }

  /** The paths the scope check gets: all of the branch's own delta once the live base went on. */
  function ScopePaths(e: SyncEvidence, liveBaseAdvanced: bool): set<Path> {
    if liveBaseAdvanced then e.newTask else e.scope
  }

  /**
   The two gates together: after an accepted adoption, whatever differs between the old and the new task
   HEAD is the new base's own content, was reviewed as overlap, was reviewed as scope expansion, or lies
   in the declared scope (when the Workspace declares one).
   */
  lemma AdoptionIsSound(g: Repo, compare: Oracle, blobAt: Reader, oldBase: Sha, newBase: Sha, oldHead: Sha, head: Sha,
                        reviewed: set<Path>, scope: seq<string>, expansion: seq<Path>, advanced: bool, p: Path)
    requires Setting(g, compare, blobAt, oldBase, newBase, oldHead, head)
    ensures var r := VerifyDeltas(compare, blobAt, true, oldBase, newBase, oldHead, head, reviewed);
            && r.Ok? && VerifyScope(scope, ScopePaths(r.value, advanced), expansion, true).Ok?
            && At(TreeOf(g, head), p) != At(TreeOf(g, oldHead), p) ==>
              || At(TreeOf(g, head), p) == At(TreeOf(g, newBase), p)
              || p in reviewed || p in expansion
              || Declared(scope) == [] || Covered(Declared(scope), p)
  {
    hide Truthful, Ancestors, Unexplained, VerifyDeltas, Declared, Covered;
    DeltasAreTreeDifferences(g, compare, blobAt, true, oldBase, newBase, oldHead, head, reviewed);
    NothingIsSmuggled(g, compare, blobAt, true, oldBase, newBase, oldHead, head, reviewed, p);
    var r := VerifyDeltas(compare, blobAt, true, oldBase, newBase, oldHead, head, reviewed);
    if r.Ok? {
      DiffersAt(TreeOf(g, newBase), TreeOf(g, head), p);
      assert p in Outside(scope, ScopePaths(r.value, advanced), true) <==>
             p in ScopePaths(r.value, advanced) && Declared(scope) != [] && !Covered(Declared(scope), p);
    }
  }

  /** The path needs a scope review: the check gets it and the declared scope does not cover it. */
  ghost predicate NeedsExpansion(g: Repo, oldBase: Sha, newBase: Sha, oldHead: Sha, head: Sha, scope: seq<string>,
                                 advanced: bool, p: Path)
    requires WellFormed(g) && oldBase in g.commits && newBase in g.commits && oldHead in g.commits && head in g.commits
  {
    var o, n, h0, h1 := At(TreeOf(g, oldBase), p), At(TreeOf(g, newBase), p), At(TreeOf(g, oldHead), p), At(TreeOf(g, head), p);
    && Declared(scope) != [] && !Covered(Declared(scope), p)
    && if !advanced && oldBase in Ancestors(g, oldHead) then h0 != h1 && o == n else n != h1
  }

  /** The reviewed paths are exactly the common ones, and what the branch left alone was really taken over. */
  ghost predicate BaseReviewFits(g: Repo, compare: Oracle, oldBase: Sha, newBase: Sha, oldHead: Sha, head: Sha, reviewed: set<Path>)
    requires WellFormed(g) && oldBase in g.commits && newBase in g.commits && oldHead in g.commits && head in g.commits
  {
    Fork(compare, oldBase, oldHead) in g.commits
    && var o, n, h0, h1, f := TreeOf(g, oldBase), TreeOf(g, newBase), TreeOf(g, oldHead), TreeOf(g, head), TreeOf(g, Fork(compare, oldBase, oldHead));
    && (forall p :: p in reviewed <==> At(o, p) != At(n, p) && (At(f, p) != At(h0, p) || At(n, p) != At(h1, p)))
    && (oldBase in Ancestors(g, oldHead) ==>
          forall p :: At(o, p) != At(n, p) && At(h0, p) == At(h1, p) ==> TakenOver(o, n, h1, p))
  }

  /**
   The two gates together are exact: the adoption is accepted if and only if the relations hold, the base review
   fits, and the reviewed expansion names, each once, exactly the paths that need it.
   */
  lemma AdoptionIsExact(g: Repo, compare: Oracle, blobAt: Reader, oldBase: Sha, newBase: Sha, oldHead: Sha, head: Sha,
                        reviewed: set<Path>, scope: seq<string>, expansion: seq<Path>, advanced: bool)
    requires Setting(g, compare, blobAt, oldBase, newBase, oldHead, head)
    ensures var r := VerifyDeltas(compare, blobAt, true, oldBase, newBase, oldHead, head, reviewed);
            r.Ok? && VerifyScope(scope, ScopePaths(r.value, advanced), expansion, true).Ok?
            <==> && ForwardRelations(g, compare, oldBase, newBase, oldHead, head)
                 && BaseReviewFits(g, compare, oldBase, newBase, oldHead, head, reviewed)
                 && (forall j, k :: 0 <= j < k < |expansion| ==> expansion[j] != expansion[k])
                 && forall p :: p in expansion <==> NeedsExpansion(g, oldBase, newBase, oldHead, head, scope, advanced, p)
  {
    hide Truthful, Ancestors, Unexplained, VerifyDeltas, Declared, Covered, ReadsTrees, ForwardRelations;
    DeltasAreExact(g, compare, blobAt, true, oldBase, newBase, oldHead, head, reviewed);
    DeltasAreTreeDifferences(g, compare, blobAt, true, oldBase, newBase, oldHead, head, reviewed);
    var r := VerifyDeltas(compare, blobAt, true, oldBase, newBase, oldHead, head, reviewed);
    assert r.Ok? <==> ForwardRelations(g, compare, oldBase, newBase, oldHead, head)
                      && BaseReviewFits(g, compare, oldBase, newBase, oldHead, head, reviewed);
    hide BaseReviewFits;
    if r.Ok? {
      forall p ensures p in Outside(scope, ScopePaths(r.value, advanced), true)
                  <==> NeedsExpansion(g, oldBase, newBase, oldHead, head, scope, advanced, p)
      {
        EvidenceInTrees(g, compare, blobAt, true, oldBase, newBase, oldHead, head, reviewed, p);
      }
    }
  }

  /** H1 is the plain merge of the new base into the branch: no path was changed on both sides. */
  ghost predicate PlainMerge(g: Repo, oldBase: Sha, newBase: Sha, oldHead: Sha, head: Sha)
    requires oldBase in g.commits && newBase in g.commits && oldHead in g.commits && head in g.commits
  {
    forall p ::
      var o, n, h0, h1 := At(TreeOf(g, oldBase), p), At(TreeOf(g, newBase), p), At(TreeOf(g, oldHead), p), At(TreeOf(g, head), p);
      (o == n || o == h0) && h1 == if o == n then h0 else n
  }

  /**
   A plain merge of the new base is adopted without any review: nothing overlaps, and the scope check gets no
   path at all, whatever the Workspace declares. Once the live base went on, exactly the branch's own changes
   outside the declared scope must be reviewed.
   */
  lemma PlainMergeNeedsNoReview(g: Repo, compare: Oracle, blobAt: Reader, oldBase: Sha, newBase: Sha, oldHead: Sha, head: Sha,
                                scope: seq<string>)
    requires Setting(g, compare, blobAt, oldBase, newBase, oldHead, head) && PlainMerge(g, oldBase, newBase, oldHead, head)
    requires ForwardRelations(g, compare, oldBase, newBase, oldHead, head) && oldBase in Ancestors(g, oldHead)
    ensures var r := VerifyDeltas(compare, blobAt, true, oldBase, newBase, oldHead, head, {});
            && r.Ok? && r.value.scope == {}
            && VerifyScope(scope, ScopePaths(r.value, false), [], true) == Ok(scope)
            && forall p :: NeedsExpansion(g, oldBase, newBase, oldHead, head, scope, true, p)
                 <==> && Declared(scope) != [] && !Covered(Declared(scope), p)
                      && At(TreeOf(g, oldHead), p) != At(TreeOf(g, oldBase), p)
  {
    hide Truthful, Ancestors, VerifyDeltas, Declared, Covered, ForwardRelations;
    DeltasAreExact(g, compare, blobAt, true, oldBase, newBase, oldHead, head, {});
    DeltasAreTreeDifferences(g, compare, blobAt, true, oldBase, newBase, oldHead, head, {});
    var r := VerifyDeltas(compare, blobAt, true, oldBase, newBase, oldHead, head, {});
    forall p ensures r.Ok? ==> p !in r.value.scope {
      EvidenceInTrees(g, compare, blobAt, true, oldBase, newBase, oldHead, head, {}, p);
    }
    var none: seq<Path> := [];
    assert Outside(scope, {}, true) == {} && (set p | p in none) == {} && NewPaths(none, scope) == none && scope + none == scope;
  }

  /** The gate is no wall: moving a branch without own changes straight to its new base needs no review. */
  lemma FastForwardIsAccepted(g: Repo, compare: Oracle, blobAt: Reader, oldBase: Sha, newBase: Sha)
    requires Setting(g, compare, blobAt, oldBase, newBase, oldBase, newBase) && StrictAncestor(g, oldBase, newBase)
    requires Bounded(compare, oldBase, newBase) && Bounded(compare, newBase, newBase) && Bounded(compare, oldBase, oldBase)
    ensures VerifyDeltas(compare, blobAt, true, oldBase, newBase, oldBase, newBase, {}).Ok?
  {
    hide Truthful, VerifyDeltas, IsMergeBase;
    DeltasAreTreeDifferences(g, compare, blobAt, true, oldBase, newBase, oldBase, newBase, {});
    DeltasAreExact(g, compare, blobAt, true, oldBase, newBase, oldBase, newBase, {});
  }
}
