/**
 Recovery of a drifted branch: when the control plane may adopt a new HEAD. Each check is a function
 of what the comparison service answers; the theorems say which histories it accepts.
 */
module DriftRecovery {
  import opened LogStore
  import opened GitGraph

  datatype RecoveryError =
    | AncestryMismatch | ScopeIncomplete | BaseChanged | HeadMismatch | TreeMismatch | BranchDeleted
    | BaseSyncOverlap | TaskDiffMismatch | ScopeViolation

  datatype Result<+T> = Ok(value: T) | Err(error: RecoveryError)

  /** Evidence for one comparison together with its changed paths. */
  datatype Delta = Delta(verified: bool, mergeBase: Sha, ahead: nat, behind: nat, paths: set<Path>)

  function Unchanged(c: Sha): Delta { Delta(true, c, 0, 0, {}) }

  /** _compare_delta: forward-only unless the caller only classifies paths, and below the file limit. */
  function CompareDelta(compare: Oracle, a: Sha, b: Sha, requireAdvance: bool, classifyOnly: bool): Result<Delta> {
    if compare(a, b).None? then Err(AncestryMismatch)
    else
      var c := compare(a, b).value;
      var verified := c.mergeBase == a && c.behind == 0 && (requireAdvance ==> c.ahead > 0);
      if !verified && !classifyOnly then Err(AncestryMismatch)
      else if |c.files| >= FILE_LIMIT then Err(ScopeIncomplete)
      else Ok(Delta(verified, c.mergeBase, c.ahead, c.behind, Named(c.files)))
  }

  /** The answer to a comparison that stays below the file limit. */
  predicate Bounded(compare: Oracle, a: Sha, b: Sha) {
    compare(a, b).Some? && |compare(a, b).value.files| < 300
  }

  /**
   A forward comparison is accepted exactly for an ancestor, a strict one where an advance is required,
   and then its paths are exactly the paths on which the two trees differ.
   */
  lemma CompareDeltaIsExact(g: Repo, compare: Oracle, a: Sha, b: Sha, requireAdvance: bool)
    requires WellFormed(g) && Truthful(g, compare) && a in g.commits && b in g.commits
    ensures var r := CompareDelta(compare, a, b, requireAdvance, false);
            && (r.Ok? <==> Bounded(compare, a, b) && a in Ancestors(g, b) && (requireAdvance ==> a != b))
            && (r.Ok? ==> r.value.verified && r.value.mergeBase == a
                          && r.value.ahead == Ahead(g, a, b) && r.value.behind == 0
                          && r.value.paths == Differing(g.commits[a].tree, g.commits[b].tree))
  {
    Told(g, compare, a, b);
    if compare(a, b).Some? { AnswersAreCoherent(g, a, b, compare(a, b).value); }
  }

  /** Comparing for classification only accepts any bounded answer, with paths taken from the merge base. */
  lemma ClassificationIsExact(g: Repo, compare: Oracle, a: Sha, b: Sha)
    requires WellFormed(g) && Truthful(g, compare) && a in g.commits && b in g.commits
    ensures var r := CompareDelta(compare, a, b, false, true);
            && (r.Ok? <==> Bounded(compare, a, b))
            && (r.Ok? ==> r.value.mergeBase in g.commits
                          && IsMergeBase(g, a, b, r.value.mergeBase)
                          && (r.value.verified <==> a in Ancestors(g, b))
                          && (r.value.verified ==> r.value.mergeBase == a)
                          && r.value.ahead == Ahead(g, a, b) && r.value.behind == Ahead(g, b, a)
                          && r.value.paths == Differing(g.commits[r.value.mergeBase].tree, g.commits[b].tree))
  {
    Told(g, compare, a, b);
    if compare(a, b).Some? { AnswersAreCoherent(g, a, b, compare(a, b).value); }
  }

  // ---- _verify_pinned_base_advance ----

  /** The local compare_delta: equal commits are never sent to the service. */
  function CompareUnequal(compare: Oracle, a: Sha, b: Sha, requireAdvance: bool, classifyOnly: bool): Result<Delta> {
    if a == b then if requireAdvance then Err(AncestryMismatch) else Ok(Unchanged(a))
    else CompareDelta(compare, a, b, requireAdvance, classifyOnly)
  }

  /** The four shapes a comparison of two commits can have. */
  predicate Coherent(a: Sha, b: Sha, d: Delta) {
    || (a == b && d.mergeBase == a && d.ahead == 0 && d.behind == 0)
    || (d.mergeBase == a && d.ahead > 0 && d.behind == 0)
    || (d.mergeBase == b && d.ahead == 0 && d.behind > 0)
    || (d.mergeBase != a && d.mergeBase != b && d.ahead > 0 && d.behind > 0)
  }

  datatype PinEvidence = PinEvidence(mergeBase: Sha, taskPaths: set<Path>, basePaths: set<Path>)

  function VerifyPinnedBaseAdvance(compare: Oracle, pinned: Sha, sessionPin: Sha, head: Sha,
                                   live: Sha): Result<PinEvidence> {
    if pinned != sessionPin then Err(BaseChanged)
    else if pinned == live then Ok(PinEvidence(pinned, {}, {}))
    else
      var base := CompareUnequal(compare, pinned, live, true, false);
      if base.Err? then Err(base.error)
      else
        var task := CompareUnequal(compare, pinned, head, false, true);
        if task.Err? then Err(task.error)
        else if !Coherent(pinned, head, task.value) then Err(AncestryMismatch)
        else
          var m := task.value.mergeBase;
          var toPin := CompareUnequal(compare, m, pinned, m != pinned, false);
          var toTask := CompareUnequal(compare, m, head, m != head, false);
          var toLive := CompareUnequal(compare, m, live, m != live, false);
          if toPin.Err? then Err(toPin.error)
          else if toTask.Err? then Err(toTask.error)
          else if toLive.Err? then Err(toLive.error)
          else Ok(PinEvidence(m, toTask.value.paths, toLive.value.paths))
  }

  predicate BoundedUnlessEqual(compare: Oracle, a: Sha, b: Sha) { a == b || Bounded(compare, a, b) }

  /** The comparisons the check makes all stay below the file limit. */
  predicate AllBounded(compare: Oracle, pinned: Sha, head: Sha, live: Sha) {
    && Bounded(compare, pinned, live) && BoundedUnlessEqual(compare, pinned, head)
    && var m := if pinned == head then pinned else compare(pinned, head).value.mergeBase;
       && BoundedUnlessEqual(compare, m, pinned) && BoundedUnlessEqual(compare, m, head)
       && BoundedUnlessEqual(compare, m, live)
  }

  lemma UnequalIsExact(g: Repo, compare: Oracle, a: Sha, b: Sha)
    requires WellFormed(g) && Truthful(g, compare) && a in g.commits && b in g.commits && a in Ancestors(g, b)
    ensures var r := CompareUnequal(compare, a, b, a != b, false);
            && (r.Ok? <==> BoundedUnlessEqual(compare, a, b))
            && (r.Ok? ==> r.value.paths == Differing(g.commits[a].tree, g.commits[b].tree))
  {
    CompareDeltaIsExact(g, compare, a, b, true);
  }

  /** The coherence check can never reject what the service says of a real history. */
  lemma CoherenceNeverRejects(g: Repo, compare: Oracle, a: Sha, b: Sha)
    requires WellFormed(g) && Truthful(g, compare) && a in g.commits && b in g.commits
    ensures var r := CompareUnequal(compare, a, b, false, true);
            && (r.Ok? <==> BoundedUnlessEqual(compare, a, b))
            && (r.Ok? ==> Coherent(a, b, r.value) && IsMergeBase(g, a, b, r.value.mergeBase) && r.value.mergeBase in g.commits
                          && r.value.mergeBase in Ancestors(g, a) && r.value.mergeBase in Ancestors(g, b)
                          && r.value.mergeBase == if a == b then a else compare(a, b).value.mergeBase)
  {
    if a == b {
      MergeBaseOfAncestor(g, a, b, a);
    } else {
      Told(g, compare, a, b);
      if compare(a, b).Some? {
        var c := compare(a, b).value;
        AnswersAreCoherent(g, a, b, c);
        MergeBaseIsSide(g, a, b, c.mergeBase);
      }
    }
  }

  /**
   The pinned-base check is exact: it accepts if and only if the pins agree and the pin is the live base,
   or is a strict ancestor of it and the comparisons are answered below the file limit. The coherence and
   the three merge-base checks never reject a real history.
   */
  lemma PinnedBaseIsExact(g: Repo, compare: Oracle, pinned: Sha, sessionPin: Sha, head: Sha, live: Sha)
    requires WellFormed(g) && Truthful(g, compare)
    requires pinned in g.commits && head in g.commits && live in g.commits
    ensures VerifyPinnedBaseAdvance(compare, pinned, sessionPin, head, live).Ok?
       <==> (&& pinned == sessionPin
             && (pinned == live || (StrictAncestor(g, pinned, live) && AllBounded(compare, pinned, head, live))))
  {
    hide CompareDelta, Ancestors, IsMergeBase, Truthful, Bounded;
    if pinned == sessionPin && pinned != live {
      CompareDeltaIsExact(g, compare, pinned, live, true);
      CoherenceNeverRejects(g, compare, pinned, head);
      var task := CompareUnequal(compare, pinned, head, false, true);
      if task.Ok? && pinned in Ancestors(g, live) {
        var m := task.value.mergeBase;
        AncestorsAreNested(g, pinned, live);
        UnequalIsExact(g, compare, m, pinned);
        UnequalIsExact(g, compare, m, head);
        UnequalIsExact(g, compare, m, live);
      }
    }
  }

  /** Below the file limit that is: the pin is live, or a strict ancestor of live related to the branch HEAD. */
  lemma PinnedBaseBelowLimit(g: Repo, compare: Oracle, pinned: Sha, head: Sha, live: Sha)
    requires WellFormed(g) && Truthful(g, compare) && Answers(g, compare)
    requires pinned in g.commits && head in g.commits && live in g.commits
    requires forall a, b {:trigger compare(a, b)} :: compare(a, b).Some? ==> |compare(a, b).value.files| < FILE_LIMIT
    ensures VerifyPinnedBaseAdvance(compare, pinned, pinned, head, live).Ok?
       <==> pinned == live || (StrictAncestor(g, pinned, live) && Common(g, pinned, head) != {})
  {
    hide Ancestors, IsMergeBase, VerifyPinnedBaseAdvance;
    PinnedBaseIsExact(g, compare, pinned, pinned, head, live);
    CoherenceNeverRejects(g, compare, pinned, head);
    if pinned == head { assert pinned in Ancestors(g, pinned) by { MergeBaseOfAncestor(g, pinned, pinned, pinned); } }
    if BoundedUnlessEqual(compare, pinned, head) && StrictAncestor(g, pinned, live) {
      var m := if pinned == head then pinned else compare(pinned, head).value.mergeBase;
      AncestorsAreNested(g, pinned, live);
      assert m in Common(g, pinned, head);
      AncestorIsCommon(g, m, pinned);
      AncestorIsCommon(g, m, head);
      AncestorIsCommon(g, m, live);
      AncestorIsCommon(g, pinned, live);
    }
  }

  lemma AncestorIsCommon(g: Repo, a: Sha, b: Sha)
    requires WellFormed(g) && a in g.commits && b in g.commits && a in Ancestors(g, b)
    ensures Common(g, a, b) != {}
  {
    assert a in Common(g, a, b);
  }

  /** What the accepted evidence means: both path lists start at a common ancestor of all three commits. */
  lemma PinEvidenceIsReal(g: Repo, compare: Oracle, pinned: Sha, sessionPin: Sha, head: Sha, live: Sha)
    requires WellFormed(g) && Truthful(g, compare)
    requires pinned in g.commits && head in g.commits && live in g.commits && pinned != live
    requires VerifyPinnedBaseAdvance(compare, pinned, sessionPin, head, live).Ok?
    ensures var e := VerifyPinnedBaseAdvance(compare, pinned, sessionPin, head, live).value;
            && e.mergeBase in g.commits && IsMergeBase(g, pinned, head, e.mergeBase)
            && e.mergeBase in Ancestors(g, live)
            && e.taskPaths == Differing(g.commits[e.mergeBase].tree, g.commits[head].tree)
            && e.basePaths == Differing(g.commits[e.mergeBase].tree, g.commits[live].tree)
  {
    hide CompareDelta, Ancestors, IsMergeBase, Truthful, Bounded, Differing;
    CompareDeltaIsExact(g, compare, pinned, live, true);
    CoherenceNeverRejects(g, compare, pinned, head);
    var m := CompareUnequal(compare, pinned, head, false, true).value.mergeBase;
    AncestorsAreNested(g, pinned, live);
    UnequalIsExact(g, compare, m, head);
    UnequalIsExact(g, compare, m, live);
  }

  // ---- _verify_forward_only ----

  function VerifyForwardOnly(compare: Oracle, treeMatches: bool, oldHead: Sha, head: Sha): Result<set<Path>> {
    if oldHead == head then Err(AncestryMismatch)
    else if compare(oldHead, head).None? then Err(AncestryMismatch)
    else
      var c := compare(oldHead, head).value;
      if !(treeMatches && c.mergeBase == oldHead && c.ahead > 0 && c.behind == 0) then Err(AncestryMismatch)
      else if |c.files| >= FILE_LIMIT then Err(ScopeIncomplete)
      else Ok(Named(c.files))
  }

  /** Manual recovery goes forward only: exactly a strict descendant, with every changed path in hand. */
  lemma ForwardOnlyIsExact(g: Repo, compare: Oracle, treeMatches: bool, oldHead: Sha, head: Sha)
    requires WellFormed(g) && Truthful(g, compare) && oldHead in g.commits && head in g.commits
    ensures var r := VerifyForwardOnly(compare, treeMatches, oldHead, head);
            && (r.Ok? <==> treeMatches && StrictAncestor(g, oldHead, head) && Bounded(compare, oldHead, head))
            && (r.Ok? ==> r.value == Differing(g.commits[oldHead].tree, g.commits[head].tree))
  {
    CompareDeltaIsExact(g, compare, oldHead, head, true);
  }
}
