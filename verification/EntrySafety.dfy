/** What an accepted entry witness says about the two trees behind its roots, and what it leaves open. */
module EntrySafety {
  import opened Words
  import opened BigEndian
  import opened SparseTree
  import opened AspGate
  import opened Admission
  import FullTree

  // ---- a fold fixes the node it starts from, unless the hash collides on the way ---------------

  /** Two different pairs with the same hash. */
  predicate Collides(h: Hash2, a: nat, b: nat, c: nat, d: nat) {
    (a, b) != (c, d) && h(a, b) == h(c, d)
  }

  function ChildOn(i: nat, side: nat): nat {
    if side == 0 then 2 * i else 2 * i + 1
  }

  /** The last step of the fold hashes another pair than the node has children. */
  predicate CollidesAtTop(h: Hash2, leaves: LeafMap, d: nat, i: nat, leaf: nat, path: seq<nat>, sides: seq<nat>)
    requires 0 < |path| == |sides| <= d
  {
    var n := |path| - 1;
    var inner := Fold(h, leaf, path[..n], sides[..n]);
    var left, right := FullTree.Full(h, leaves, d - 1, 2 * i), FullTree.Full(h, leaves, d - 1, 2 * i + 1);
    if sides[n] == 0 then Collides(h, inner, path[n], left, right) else Collides(h, path[n], inner, left, right)
  }

  /** Some step of the fold collides with the tree below node i of height d. */
  predicate CollidesOnPath(h: Hash2, leaves: LeafMap, d: nat, i: nat, leaf: nat, path: seq<nat>, sides: seq<nat>)
    requires |path| == |sides| <= d
    decreases |path|
  {
    if path == [] then false
    else
      var n := |path| - 1;
      || CollidesAtTop(h, leaves, d, i, leaf, path, sides)
      || CollidesOnPath(h, leaves, d - 1, ChildOn(i, sides[n]), leaf, path[..n], sides[..n])
  }

  /** A path without collision that folds to a node starts at the node below it that its sides lead to. */
  lemma {:induction false} FoldStartsAtNode(h: Hash2, leaves: LeafMap, d: nat, i: nat, leaf: nat, path: seq<nat>,
                                            sides: seq<nat>)
    requires |path| == |sides| <= d && Fold(h, leaf, path, sides) == FullTree.Full(h, leaves, d, i)
    requires !CollidesOnPath(h, leaves, d, i, leaf, path, sides)
    ensures leaf == FullTree.Full(h, leaves, d - |path|, PathIndex(i, sides))
    decreases |path|
  {
    if path != [] {
      var n := |path| - 1;
      FoldStartsAtNode(h, leaves, d - 1, ChildOn(i, sides[n]), leaf, path[..n], sides[..n]);
    }
  }

  // ---- witnesses as numbers ----------------------------------------------------------------------

  function Decode(path: seq<Bytes32>): (r: seq<nat>)
    ensures |r| == |path|
  {
    seq(|path|, i requires 0 <= i < |path| => FromBe(path[i]))
  }

  lemma {:induction false} ByteFoldValue(h: Hash2, leaf: Bytes32, path: seq<Bytes32>, sides: seq<nat>)
    requires OutputsFit(h) && |path| == |sides|
    ensures FromBe(ByteFold(h, leaf, path, sides)) == Fold(h, FromBe(leaf), Decode(path), sides)
    decreases |path|
  {
    if path != [] {
      var n := |path| - 1;
      ByteFoldValue(h, leaf, path[..n], sides[..n]);
      assert Decode(path)[..n] == Decode(path[..n]);
      var current := ByteFold(h, leaf, path[..n], sides[..n]);
      Word32Value(h(FromBe(current), FromBe(path[n])));
      Word32Value(h(FromBe(path[n]), FromBe(current)));
    }
  }

  /** The bytes are the root of the tree over the leaves. */
  ghost predicate IsRootOf(h: Hash2, leaves: seq<nat>, depth: nat, root: Bytes32) {
    FromBe(root) == FullTree.Full(h, LeavesOf(leaves), depth, 0)
  }

  /** A path of the tree's depth on which the hash does not collide. */
  predicate IsCleanPath(h: Hash2, leaves: seq<nat>, depth: nat, leaf: Bytes32, path: seq<Bytes32>, sides: seq<nat>) {
    && |path| == |sides| == depth
    && !CollidesOnPath(h, LeavesOf(leaves), depth, 0, FromBe(leaf), Decode(path), sides)
  }

  lemma {:induction false} PathIndexBound(i: nat, sides: seq<nat>)
    ensures PathIndex(i, sides) < (i + 1) * Pow2(|sides|)
    decreases |sides|
  {
    if sides != [] {
      var n := |sides| - 1;
      PathIndexBound(ChildOn(i, sides[n]), sides[..n]);
      MulMonotone(ChildOn(i, sides[n]) + 1, 2 * i + 2, Pow2(n));
      assert (2 * i + 2) * Pow2(n) == (i + 1) * Pow2(n + 1);
    }
  }

  /** Whatever folds to the root along such a path is at level 0 of the tree. */
  lemma FoldedIsAtLevelZero(h: Hash2, leaves: seq<nat>, depth: nat, root: Bytes32, leaf: Bytes32, path: seq<Bytes32>,
                            sides: seq<nat>)
    requires OutputsFit(h) && IsRootOf(h, leaves, depth, root) && IsCleanPath(h, leaves, depth, leaf, path, sides)
    requires ByteFold(h, leaf, path, sides) == root
    ensures HoldsAt(leaves, PathIndex(0, sides), FromBe(leaf)) && AtLevelZero(leaves, depth, FromBe(leaf))
  {
    ByteFoldValue(h, leaf, path, sides);
    FoldStartsAtNode(h, LeavesOf(leaves), depth, 0, FromBe(leaf), Decode(path), sides);
    PathIndexBound(0, sides);
    var k := PathIndex(0, sides);
    assert k < Pow2(depth) && HoldsAt(leaves, k, FromBe(leaf));
  }

  /** The roots are those of the two trees and all three paths are clean. */
  ghost predicate IsForTrees(h: Hash2, approved: seq<nat>, blocked: seq<nat>, depth: nat, p: MembershipProof) {
    && IsRootOf(h, approved, depth, p.approvedRoot) && IsRootOf(h, blocked, depth, p.blockedRoot)
    && IsCleanPath(h, approved, depth, p.credentialLeaf, p.approvedPath, p.approvedIdx)
    && IsCleanPath(h, blocked, depth, p.blockedLowerLeaf, p.blockedLowerPath, p.blockedLowerIdx)
    && IsCleanPath(h, blocked, depth, p.blockedUpperLeaf, p.blockedUpperPath, p.blockedUpperIdx)
  }

  /** The value lies strictly between two blocked leaves below the root, the padding 0 counting as one. */
  ghost predicate IsEnclosed(blocked: seq<nat>, depth: nat, v: nat) {
    exists x: nat, y: nat :: AtLevelZero(blocked, depth, x) && AtLevelZero(blocked, depth, y) && x < v < y
  }

  /** An accepted credential is a leaf of the approved tree and is enclosed by blocked leaves. */
  lemma AcceptedIsApproved(h: Hash2, approved: seq<nat>, blocked: seq<nat>, depth: nat, history: seq<Pair>,
                           p: MembershipProof)
    requires OutputsFit(h) && IsForTrees(h, approved, blocked, depth, p)
    requires EntryResult(h, history, p).Ok?
    ensures (p.approvedRoot, p.blockedRoot) in history
    ensures var i := PathIndex(0, p.approvedIdx);
            i < |approved| && approved[i] == FromBe(p.credentialLeaf)
    ensures AtLevelZero(approved, depth, FromBe(p.credentialLeaf))
    ensures IsEnclosed(blocked, depth, FromBe(p.credentialLeaf))
  {
    CheckWitnessMeans(h, p);
    FoldedIsAtLevelZero(h, approved, depth, p.approvedRoot, p.credentialLeaf, p.approvedPath, p.approvedIdx);
    FoldedIsAtLevelZero(h, blocked, depth, p.blockedRoot, p.blockedLowerLeaf, p.blockedLowerPath, p.blockedLowerIdx);
    FoldedIsAtLevelZero(h, blocked, depth, p.blockedRoot, p.blockedUpperLeaf, p.blockedUpperPath, p.blockedUpperIdx);
  }

  /** The length of a path is not checked: a shorter one proves the inner node at its end, up to the root itself. */
  lemma ShortPathProvesNode(h: Hash2, approved: seq<nat>, depth: nat, p: MembershipProof)
    requires OutputsFit(h) && IsRootOf(h, approved, depth, p.approvedRoot) && CheckWitness(h, p).Ok?
    requires |p.approvedPath| == |p.approvedIdx| <= depth
    requires !CollidesOnPath(h, LeavesOf(approved), depth, 0, FromBe(p.credentialLeaf), Decode(p.approvedPath),
                             p.approvedIdx)
    ensures FromBe(p.credentialLeaf)
            == FullTree.Full(h, LeavesOf(approved), depth - |p.approvedPath|, PathIndex(0, p.approvedIdx))
  {
    CheckWitnessMeans(h, p);
    ByteFoldValue(h, p.credentialLeaf, p.approvedPath, p.approvedIdx);
    FoldStartsAtNode(h, LeavesOf(approved), depth, 0, FromBe(p.credentialLeaf), Decode(p.approvedPath), p.approvedIdx);
  }

  // ---- who can enter -----------------------------------------------------------------------------

  function Siblings(h: Hash2, leaves: LeafMap, target: nat, n: nat): seq<nat> {
    seq(n, k requires 0 <= k < n => FullTree.Full(h, leaves, k, Sibling(Anc(target, k))))
  }

  function Sides(target: nat, n: nat): seq<nat> {
    seq(n, k requires 0 <= k < n => Anc(target, k) % 2)
  }

  lemma ChildrenOfParent(c: nat)
    ensures ChildOn(c / 2, c % 2) == c
    ensures c % 2 == 0 ==> 2 * (c / 2) == c && 2 * (c / 2) + 1 == Sibling(c)
    ensures c % 2 == 1 ==> 2 * (c / 2) == Sibling(c) && 2 * (c / 2) + 1 == c
  {}

  lemma OwnStepIsClean(h: Hash2, leaves: LeafMap, leaf: nat, n: nat, c: nat, path: seq<nat>, sides: seq<nat>)
    requires |path| == |sides| == n + 1 && sides[n] == c % 2
    requires Fold(h, leaf, path[..n], sides[..n]) == FullTree.Full(h, leaves, n, c)
    requires path[n] == FullTree.Full(h, leaves, n, Sibling(c))
    ensures !CollidesAtTop(h, leaves, n + 1, c / 2, leaf, path, sides)
  {
    ChildrenOfParent(c);
  }

  lemma OwnStep(h: Hash2, leaves: LeafMap, target: nat, path: seq<nat>, sides: seq<nat>, n: nat)
    requires FullTree.IsPathTo(h, leaves, target, path, sides) && |path| == n + 1
    ensures !CollidesAtTop(h, leaves, n + 1, Anc(target, n + 1), FullTree.Full(h, leaves, 0, target), path, sides)
    ensures ChildOn(Anc(target, n + 1), sides[n]) == Anc(target, n)
  {
    var c := Anc(target, n);
    FullTree.PathFolds(h, leaves, target, path[..n], sides[..n]);
    OwnStepIsClean(h, leaves, FullTree.Full(h, leaves, 0, target), n, c, path, sides);
    ChildrenOfParent(c);
  }

  /** The path of a position does not collide with its own tree. */
  lemma {:induction false} OwnPathIsClean(h: Hash2, leaves: LeafMap, target: nat, path: seq<nat>, sides: seq<nat>)
    requires FullTree.IsPathTo(h, leaves, target, path, sides)
    ensures !CollidesOnPath(h, leaves, |path|, Anc(target, |path|), FullTree.Full(h, leaves, 0, target), path, sides)
    decreases |path|
  {
    if path != [] {
      var n := |path| - 1;
      OwnPathIsClean(h, leaves, target, path[..n], sides[..n]);
      OwnStep(h, leaves, target, path, sides, n);
    }
  }

  function PathOf(h: Hash2, leaves: seq<nat>, depth: nat, target: nat): seq<Bytes32> {
    Encode(Siblings(h, LeavesOf(leaves), target, depth))
  }

  lemma PathOfFits(h: Hash2, leaves: seq<nat>, depth: nat, target: nat)
    requires OutputsFit(h) && AllFit(leaves)
    ensures var path := Siblings(h, LeavesOf(leaves), target, depth);
            && (forall k :: 0 <= k < depth ==> path[k] < TWO_256) && Decode(PathOf(h, leaves, depth, target)) == path
  {
    var path := Siblings(h, LeavesOf(leaves), target, depth);
    forall k | 0 <= k < depth
      ensures path[k] < TWO_256 && Decode(Encode(path))[k] == path[k]
    {
      NodesFit(h, leaves, k, Sibling(Anc(target, k)));
      Word32Value(path[k]);
    }
  }

  lemma TopIsZero(target: nat, depth: nat)
    requires target < Pow2(depth)
    ensures Anc(target, depth) == 0
  {
    AncBound(target, depth, depth);
  }

  lemma PositionFolds(h: Hash2, leaves: LeafMap, target: nat, leaf: nat, path: seq<nat>, sides: seq<nat>)
    requires FullTree.IsPathTo(h, leaves, target, path, sides)
    requires target < Pow2(|path|) && leaf == FullTree.Full(h, leaves, 0, target)
    ensures Fold(h, leaf, path, sides) == FullTree.Full(h, leaves, |path|, 0)
    ensures !CollidesOnPath(h, leaves, |path|, 0, leaf, path, sides)
  {
    TopIsZero(target, |path|);
    FullTree.PathFolds(h, leaves, target, path, sides);
    OwnPathIsClean(h, leaves, target, path, sides);
  }

  /** The path of a position folds what is there to the root, without collision. */
  lemma PathOfPosition(h: Hash2, leaves: seq<nat>, depth: nat, target: nat, x: nat)
    requires OutputsFit(h) && AllFit(leaves) && target < Pow2(depth) && HoldsAt(leaves, target, x)
    ensures var root := Word32(FullTree.Full(h, LeavesOf(leaves), depth, 0));
            && IsRootOf(h, leaves, depth, root)
            && IsCleanPath(h, leaves, depth, Word32(x), PathOf(h, leaves, depth, target), Sides(target, depth))
            && ByteFold(h, Word32(x), PathOf(h, leaves, depth, target), Sides(target, depth)) == root
            && FromBe(Word32(x)) == x
  {
    NodesFit(h, leaves, depth, 0);
    NodesFit(h, leaves, 0, target);
    Word32Value(x);
    Word32Value(FullTree.Full(h, LeavesOf(leaves), depth, 0));
    PathOfFits(h, leaves, depth, target);
    PositionFolds(h, LeavesOf(leaves), target, x, Siblings(h, LeavesOf(leaves), target, depth), Sides(target, depth));
    ByteFoldIsFold(h, x, Siblings(h, LeavesOf(leaves), target, depth), Sides(target, depth));
  }

  /** The witness that takes the credential at position t and the bounds at positions i and j. */
  function WitnessAt(h: Hash2, approved: seq<nat>, blocked: seq<nat>, depth: nat, t: nat, v: nat, i: nat, x: nat,
                     j: nat, y: nat): MembershipProof
  {
    MembershipProof(Word32(v), PathOf(h, approved, depth, t), Sides(t, depth), Word32(x), Word32(y),
                    PathOf(h, blocked, depth, i), Sides(i, depth), PathOf(h, blocked, depth, j), Sides(j, depth),
                    Word32(FullTree.Full(h, LeavesOf(approved), depth, 0)),
                    Word32(FullTree.Full(h, LeavesOf(blocked), depth, 0)))
  }

  lemma WitnessIsAccepted(h: Hash2, approved: seq<nat>, blocked: seq<nat>, depth: nat, t: nat, v: nat, i: nat, x: nat,
                          j: nat, y: nat)
    requires OutputsFit(h) && AllFit(approved) && AllFit(blocked)
    requires t < Pow2(depth) && i < Pow2(depth) && j < Pow2(depth)
    requires HoldsAt(approved, t, v) && HoldsAt(blocked, i, x) && HoldsAt(blocked, j, y) && x < v < y
    ensures var p := WitnessAt(h, approved, blocked, depth, t, v, i, x, j, y);
            && IsForTrees(h, approved, blocked, depth, p) && CheckWitness(h, p).Ok?
            && FromBe(p.credentialLeaf) == v
  {
    PathOfPosition(h, approved, depth, t, v);
    PathOfPosition(h, blocked, depth, i, x);
    PathOfPosition(h, blocked, depth, j, y);
    CheckWitnessMeans(h, WitnessAt(h, approved, blocked, depth, t, v, i, x, j, y));
  }

  /** Some witness for the trees enters the credential. */
  ghost predicate CanEnter(h: Hash2, approved: seq<nat>, blocked: seq<nat>, depth: nat, v: nat) {
    exists p :: && IsForTrees(h, approved, blocked, depth, p) && CheckWitness(h, p).Ok?
                && FromBe(p.credentialLeaf) == v
  }

  /**
   * A credential can enter exactly when it is a leaf below the approved root and is enclosed by blocked leaves, whether
   * or not it is one of them itself.
   */
  lemma CanEnterIff(h: Hash2, approved: seq<nat>, blocked: seq<nat>, depth: nat, v: nat)
    requires OutputsFit(h) && AllFit(approved) && AllFit(blocked)
    ensures CanEnter(h, approved, blocked, depth, v)
            <==> AtLevelZero(approved, depth, v) && IsEnclosed(blocked, depth, v)
  {
    if CanEnter(h, approved, blocked, depth, v) {
      var p :| IsForTrees(h, approved, blocked, depth, p) && CheckWitness(h, p).Ok? && FromBe(p.credentialLeaf) == v;
      AcceptedIsApproved(h, approved, blocked, depth, [(p.approvedRoot, p.blockedRoot)], p);
    }
    if AtLevelZero(approved, depth, v) && IsEnclosed(blocked, depth, v) {
      var t: nat :| t < Pow2(depth) && HoldsAt(approved, t, v);
      var x: nat, y: nat :| AtLevelZero(blocked, depth, x) && AtLevelZero(blocked, depth, y) && x < v < y;
      var i: nat :| i < Pow2(depth) && HoldsAt(blocked, i, x);
      var j: nat :| j < Pow2(depth) && HoldsAt(blocked, j, y);
      WitnessIsAccepted(h, approved, blocked, depth, t, v, i, x, j, y);
    }
  }

  /** With 1, 2 and 3 blocked, 2 can enter. */
  lemma BlockedCredentialCanEnter(h: Hash2, approved: seq<nat>)
    requires OutputsFit(h) && AllFit(approved) && AtLevelZero(approved, 2, 2)
    ensures CanEnter(h, approved, [1, 2, 3], 2, 2)
  {
    assert HoldsAt([1, 2, 3], 0, 1) && HoldsAt([1, 2, 3], 2, 3);
    assert AtLevelZero([1, 2, 3], 2, 1) && AtLevelZero([1, 2, 3], 2, 3);
    assert AllFit([1, 2, 3]);
    CanEnterIff(h, approved, [1, 2, 3], 2, 2);
  }
}
