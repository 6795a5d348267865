/** Which notes are in the core's tree, and why a proof against a known root can only be about one of them. */
module Membership {
  import opened Words
  import opened Notes
  import opened SparseTree
  import opened CoreState
  import opened NoteCircuit

  /** Leaf i is read as the commitment. */
  predicate IsLeaf(hs: Hashes, leaves: seq<Leaf>, i: nat, cm: nat) {
    i < |leaves| && hs.read(leaves[i].cm) == cm
  }

  ghost predicate InTree(hs: Hashes, leaves: seq<Leaf>, cm: nat) {
    exists i :: IsLeaf(hs, leaves, i, cm)
  }

  /** No note lies under the initial root, which is a constant of the deployment. */
  ghost predicate EmptyRootHoldsNoNote(cfg: Config, hs: Hashes) {
    forall n, path, sides ::
      |path| == |sides| == cfg.depth ==> Fold(cfg.h, NoteCm(hs, n), path, sides) != hs.read(cfg.emptyRoot)
  }

  /** The hashes are binding and read as themselves, and the initial tree is empty. */
  ghost predicate BindingTrees(cfg: Config, hs: Hashes) {
    Binding(hs) && Reads(hs) && BindingTree(hs.read, cfg.h) && EmptyRootHoldsNoNote(cfg, hs)
  }

  lemma InTreeGrows(hs: Hashes, leaves: seq<Leaf>, more: seq<Leaf>, cm: nat)
    requires leaves <= more && InTree(hs, leaves, cm)
    ensures InTree(hs, more, cm)
  {
    var i :| IsLeaf(hs, leaves, i, cm);
    assert IsLeaf(hs, more, i, cm);
  }

  lemma FoldIsCanonical(hs: Hashes, h: Hash2, n: NoteData, path: seq<nat>, sides: seq<nat>)
    requires Reads(hs) && BindingTree(hs.read, h) && |path| == |sides|
    ensures hs.read(Fold(h, NoteCm(hs, n), path, sides)) == Fold(h, NoteCm(hs, n), path, sides)
  {
    if |path| > 0 {
      var last := |path| - 1;
      var inner := Fold(h, NoteCm(hs, n), path[..last], sides[..last]);
      assert Fold(h, NoteCm(hs, n), path, sides) == FoldStep(h, inner, path[last], sides[last]);
    }
  }

  /** A tree that starts with root 0 holds no note then. */
  lemma ZeroRootHoldsNoNote(cfg: Config, hs: Hashes)
    requires Binding(hs) && BindingTree(hs.read, cfg.h) && cfg.emptyRoot == 0
    ensures EmptyRootHoldsNoNote(cfg, hs)
  {
    forall n, path, sides | |path| == |sides| == cfg.depth
      ensures Fold(cfg.h, NoteCm(hs, n), path, sides) != hs.read(cfg.emptyRoot)
    {
      if |path| > 0 {
        var last := |path| - 1;
        var inner := Fold(cfg.h, NoteCm(hs, n), path[..last], sides[..last]);
        assert Fold(cfg.h, NoteCm(hs, n), path, sides) == FoldStep(cfg.h, inner, path[last], sides[last]);
      }
    }
  }

  /** A note that folds to a known root is the leaf of the tree that its path leads to. */
  lemma KnownRootHoldsNote(cfg: Config, hs: Hashes, core: Core, root: nat, n: NoteData, path: seq<nat>, sides: seq<nat>)
    requires BindingTrees(cfg, hs) && RootIsKnown(cfg, core, root)
    requires |path| == |sides| == cfg.depth && hs.read(root) == Fold(cfg.h, NoteCm(hs, n), path, sides)
    ensures IsLeaf(hs, core.leaves, PathIndex(0, sides), NoteCm(hs, n)) && InTree(hs, core.leaves, NoteCm(hs, n))
  {
    var cm, hist := NoteCm(hs, n), RootHistory(cfg, core.leaves);
    assert root in hist;
    var k :| 0 <= k < |hist| && hist[k] == root;
    var sub := core.leaves[..k];
    assert root == RootAfter(cfg, sub);
    if sub != [] {
      FoldIsCanonical(hs, cfg.h, n, path, sides);
      FoldProvesMembership(hs.read, cfg.h, LeavesOf(Cms(sub)), 0, cm, path, sides);
      assert IsLeaf(hs, core.leaves, PathIndex(0, sides), cm);
    }
  }

  /** So every note proved against a known root is in the tree. */
  lemma ProvedNoteIsInTree(cfg: Config, hs: Hashes, core: Core, root: nat, nf: nat, w: Owned)
    requires BindingTrees(cfg, hs) && RootIsKnown(cfg, core, root)
    requires Proves(hs, cfg.h, cfg.depth, hs.read(root), nf, w)
    ensures IsLeaf(hs, core.leaves, PathIndex(0, w.sides), NoteCm(hs, NoteOf(hs, w)))
    ensures InTree(hs, core.leaves, NoteCm(hs, NoteOf(hs, w)))
  {
    KnownRootHoldsNote(cfg, hs, core, root, NoteOf(hs, w), w.path, w.sides);
  }

  // ---- the root window -----------------------------------------------------------------------

  /** Every leaf beyond the first n is read as something. */
  predicate FilledBeyond(hs: Hashes, leaves: seq<Leaf>, n: nat) {
    forall i :: n <= i < |leaves| ==> hs.read(leaves[i].cm) != 0
  }

  /** Each insertion gives the tree a root it has not had before. */
  lemma RootsDiffer(cfg: Config, hs: Hashes, leaves: seq<Leaf>, k: nat, m: nat)
    requires BindingTree(hs.read, cfg.h) && 0 < k < m <= |leaves| <= Pow2(cfg.depth) && FilledBeyond(hs, leaves, k)
    ensures RootAfter(cfg, leaves[..k]) != RootAfter(cfg, leaves[..m])
  {
    var a, b := LeavesOf(Cms(leaves[..k])), LeavesOf(Cms(leaves[..m]));
    AncBound(m - 1, cfg.depth, cfg.depth);
    assert Get(a, m - 1) == None && Get(b, m - 1) == Some(leaves[m - 1].cm);
    if Root(cfg.h, cfg.depth, a) == Root(cfg.h, cfg.depth, b) {
      RootDeterminesLeaves(hs.read, cfg.h, a, b, cfg.depth, 0, m - 1);
    }
  }

  /** So with a binding hash the root of some moment is known exactly as long as fewer than 50 insertions follow. */
  lemma RootIsKnownFor50(cfg: Config, hs: Hashes, core: Core, later: Core)
    requires BindingTree(hs.read, cfg.h) && core.leaves != [] && core.leaves <= later.leaves
    requires |later.leaves| <= Pow2(cfg.depth) && FilledBeyond(hs, later.leaves, |core.leaves|)
    ensures RootIsKnown(cfg, later, RootAfter(cfg, core.leaves)) <==> |later.leaves| < |core.leaves| + 50
  {
    var root, n := RootAfter(cfg, core.leaves), |core.leaves|;
    assert later.leaves[..n] == core.leaves;
    RootIsKnownIff(cfg, later, root);
    if |later.leaves| >= n + 50 && RootIsKnown(cfg, later, root) {
      var k: nat :| k <= |later.leaves| < k + 50 && root == RootAfter(cfg, later.leaves[..k]);
      RootsDiffer(cfg, hs, later.leaves, n, k);
    }
  }
}
