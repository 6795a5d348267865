/** The browser client's Merkle tree: all levels are kept, and rebuilt on every insertion. */
module ClientMerkle {
  import opened Words
  import opened SparseTree
  import FullTree

  /**
   * Building hashes a missing value, and so throws, exactly when the leaves overflow the depth and do not fill a
   * multiple of it.
   */
  predicate Builds(n: nat, depth: nat) {
    n <= Pow2(depth) || n % Pow2(depth) == 0
  }

  /** The width of level 0: the leaves, padded to the capacity of the depth. */
  function Width(n: nat, depth: nat): nat {
    if n <= Pow2(depth) then Pow2(depth) else n
  }

  lemma CeilDivCovers(a: nat, q: nat)
    requires q > 0
    ensures (a + q - 1) / q * q >= a
  {
    var c := (a + q - 1) / q;
    assert a + q - 1 == c * q + (a + q - 1) % q;
  }

  lemma Pow2Splits(i: nat, depth: nat)
    requires i <= depth
    ensures Pow2(depth) == Pow2(depth - i) * Pow2(i)
    decreases i
  {
    if i > 0 {
      Pow2Splits(i - 1, depth);
      assert Pow2(depth - (i - 1)) == 2 * Pow2(depth - i);
    }
  }

  lemma CancelFactor(x: nat, y: nat, q: nat)
    requires q > 0 && x * q == y * q
    ensures x == y
  {
    MulMonotone(x + 1, y, q);
    MulMonotone(y + 1, x, q);
    MulMonotone(x, y, q);
  }

  lemma WidthIsMultiple(n: nat, depth: nat) returns (q: nat)
    requires Builds(n, depth)
    ensures Width(n, depth) == q * Pow2(depth)
  {
    q := if n <= Pow2(depth) then 1 else n / Pow2(depth);
  }

  lemma EvenWidth(n: nat, depth: nat, i: nat, width: nat)
    requires i < depth && width * Pow2(i) == Width(n, depth) && Builds(n, depth)
    ensures width % 2 == 0
  {
    var q := WidthIsMultiple(n, depth);
    Pow2Splits(i, depth);
    EvenFactor(width, q, Pow2(depth - i - 1), Pow2(i), Pow2(depth));
  }

  lemma EvenFactor(width: nat, q: nat, half: nat, unit: nat, whole: nat)
    requires unit > 0 && whole == 2 * half * unit && width * unit == q * whole
    ensures width % 2 == 0
  {
    MulAssociates(q, 2 * half, unit);
    CancelFactor(width, q * (2 * half), unit);
    MulAssociates(2, q, half);
    assert width == 2 * (q * half);
  }

  lemma MulAssociates(x: nat, y: nat, z: nat)
    ensures x * (y * z) == x * y * z
  {}

  lemma HalfWidth(width: nat, i: nat)
    requires width % 2 == 0
    ensures width / 2 * Pow2(i + 1) == width * Pow2(i)
  {
    var half := width / 2;
    assert half * (2 * Pow2(i)) == (2 * half) * Pow2(i);
  }

  /** A level of odd width below the top means that the leaves fill no multiple of the capacity. */
  lemma OddWidthDoesNotBuild(n: nat, depth: nat, i: nat, width: nat)
    requires i < depth && width * Pow2(i) == Width(n, depth) && width % 2 == 1
    ensures n > Pow2(depth) && !Builds(n, depth) && (n + Pow2(i) - 1) / Pow2(i) == width
  {
    if Builds(n, depth) {
      EvenWidth(n, depth, i, width);
    }
    CeilOfMultiple(width, Pow2(i));
  }

  lemma CeilOfMultiple(x: nat, q: nat)
    requires q > 0
    ensures (x * q + q - 1) / q == x
  {
    var c := (x * q + q - 1) / q;
    assert x * q + q - 1 == c * q + (x * q + q - 1) % q;
    MulMonotone(c + 1, x, q);
    MulMonotone(x + 1, c, q);
    MulMonotone(c, x, q);
  }

  lemma TopWidthBuilds(n: nat, depth: nat, width: nat)
    requires width * Pow2(depth) == Width(n, depth)
    ensures Builds(n, depth) && width > 0
  {
    MultipleHasNoRemainder(width, Pow2(depth));
  }

  lemma MultipleHasNoRemainder(x: nat, q: nat)
    requires q > 0
    ensures x * q % q == 0
  {
    var c, r := x * q / q, x * q % q;
    assert x * q == c * q + r;
    MulMonotone(x + 1, c, q);
    MulMonotone(c + 1, x, q);
  }

  /** Level d is the full recomputation over the leaves, with its share of the width of level 0. */
  ghost predicate LevelOf(h: Hash2, leaves: seq<nat>, depth: nat, d: nat, level: seq<nat>) {
    && |level| * Pow2(d) == Width(|leaves|, depth)
    && FullTree.IsLevel(h, LeavesOf(leaves), d, |level|, level)
  }

  class MerkleTree {
    const h: Hash2
    const depth: nat
    var leaves: seq<nat>
    var tree: seq<seq<nat>>
    var zeroHashes: seq<nat>

    ghost predicate ZerosValid()
      reads this
    {
      |zeroHashes| == depth + 1 && forall d :: 0 <= d <= depth ==> zeroHashes[d] == FullTree.ZeroHash(h, d)
    }

    ghost predicate Valid()
      reads this
    {
      && ZerosValid() && Builds(|leaves|, depth)
      && |tree| == depth + 1 && forall d :: 0 <= d <= depth ==> LevelOf(h, leaves, depth, d, tree[d])
    }

    /** The levels are built unless building throws, in which case no caller gets the object. */
    constructor (depth: nat, h: Hash2, leaves: seq<nat>)
      ensures Valid() <==> Builds(|leaves|, depth)
      ensures ZerosValid() && this.depth == depth && this.h == h && this.leaves == leaves
    {
      this.depth := depth;
      this.h := h;
      this.leaves := leaves;
      this.tree := [];
      var zeros := [0];
      for i := 0 to depth
        invariant |zeros| == i + 1
        invariant forall d :: 0 <= d <= i ==> zeros[d] == FullTree.ZeroHash(h, d)
      {
        zeros := zeros + [h(zeros[i], zeros[i])];
      }
      this.zeroHashes := zeros;
      new;
      var ok := BuildTree();
    }

    /** Rebuilds every level; false is the exception, after which only the lower levels are there. */
    method BuildTree() returns (ok: bool)
      requires ZerosValid()
      modifies this`tree
      ensures ok <==> Builds(|leaves|, depth)
      ensures ok ==> Valid()
    {
      PadLeaves();
      for i := 0 to depth
        invariant |tree| == i + 1
        invariant forall d :: 0 <= d <= i ==> LevelOf(h, leaves, depth, d, tree[d])
      {
        var nextLevel := BuildLevel(i);
        if nextLevel.None? {
          OddWidthDoesNotBuild(|leaves|, depth, i, |tree[i]|);
          return false;
        }
        HalfWidth(|tree[i]|, i);
        tree := tree + [nextLevel.value];
      }
      TopWidthBuilds(|leaves|, depth, |tree[depth]|);
      ok := true;
    }

    method PadLeaves()
      requires ZerosValid()
      modifies this`tree
      ensures |tree| == 1 && LevelOf(h, leaves, depth, 0, tree[0])
    {
      tree := [leaves];
      var numLeaves := Pow2(depth);
      while |tree[0]| < numLeaves
        invariant |tree| == 1 && |leaves| <= |tree[0]| <= Width(|leaves|, depth)
        invariant FullTree.IsLevel(h, LeavesOf(leaves), 0, |tree[0]|, tree[0])
        decreases numLeaves - |tree[0]|
      {
        tree := [tree[0] + [zeroHashes[0]]];
      }
    }

    /**
     * One level from the one below it; pairs right of the leaves take the zero hash without hashing. None when the last
     * value to be hashed has no partner.
     */
    method BuildLevel(i: nat) returns (r: Option<seq<nat>>)
      requires i < depth && i < |tree| && ZerosValid() && LevelOf(h, leaves, depth, i, tree[i])
      ensures r.Some? <==> |tree[i]| % 2 == 0
      ensures r.Some? ==> FullTree.IsLevel(h, LeavesOf(leaves), i + 1, |tree[i]| / 2, r.value)
    {
      var currentLevel := tree[i];
      var nextLevel: seq<nat> := [];
      var lastNonZeroPairIndex := (|leaves| + Pow2(i) - 1) / Pow2(i) * 2;
      if |currentLevel| % 2 == 1 {
        OddWidthDoesNotBuild(|leaves|, depth, i, |currentLevel|);
      }
      var j := 0;
      while j < |currentLevel|
        invariant j == 2 * |nextLevel| <= |currentLevel| + 1
        invariant |currentLevel| % 2 == 1 ==> j < |currentLevel| <= lastNonZeroPairIndex
        invariant FullTree.IsLevel(h, LeavesOf(leaves), i + 1, |nextLevel|, nextLevel)
      {
        if j >= lastNonZeroPairIndex {
          ZeroPair(i, |nextLevel|);
          nextLevel := nextLevel + [zeroHashes[i + 1]];
        } else if j + 1 == |currentLevel| {
          return None;
        } else {
          nextLevel := nextLevel + [h(currentLevel[j], currentLevel[j + 1])];
        }
        j := j + 2;
      }
      r := Some(nextLevel);
    }

    lemma ZeroPair(i: nat, p: nat)
      requires Pow2(i) > 0 && p >= (|leaves| + Pow2(i) - 1) / Pow2(i)
      ensures FullTree.Full(h, LeavesOf(leaves), i + 1, p) == FullTree.ZeroHash(h, i + 1)
    {
      var c := (|leaves| + Pow2(i) - 1) / Pow2(i);
      CeilDivCovers(|leaves|, Pow2(i));
      assert p * Pow2(i + 1) == 2 * (p * Pow2(i));
      MulMonotone(c, p, Pow2(i));
      forall j | j in LeavesOf(leaves)
        ensures Anc(j, i + 1) != p
      {
        FullTree.RightOfPrefix(|leaves|, i + 1, p, j);
      }
      FullTree.EmptySubtree(h, LeavesOf(leaves), i + 1, p);
    }

    /** Each level is twice as wide as the next, and the top is not empty. */
    lemma Widths()
      requires Valid()
      ensures |tree[0]| == Width(|leaves|, depth) && |tree[depth]| > 0
      ensures forall d: nat :: d < depth ==> |tree[d]| == 2 * |tree[d + 1]|
    {
      assert LevelOf(h, leaves, depth, 0, tree[0]) && LevelOf(h, leaves, depth, depth, tree[depth]);
      forall d: nat | d < depth
        ensures |tree[d]| == 2 * |tree[d + 1]|
      {
        assert LevelOf(h, leaves, depth, d, tree[d]) && LevelOf(h, leaves, depth, d + 1, tree[d + 1]);
        assert |tree[d + 1]| * Pow2(d + 1) == 2 * |tree[d + 1]| * Pow2(d);
        CancelFactor(|tree[d]|, 2 * |tree[d + 1]|, Pow2(d));
      }
      TopWidthBuilds(|leaves|, depth, |tree[depth]|);
    }

    function Root(): nat
      requires Valid()
      reads this
    {
      Widths();
      tree[depth][0]
    }

    /** The root is the full recomputation over the leaves. */
    lemma RootIsFull()
      requires Valid()
      ensures Root() == FullTree.Full(h, LeavesOf(leaves), depth, 0)
    {
      Widths();
      assert LevelOf(h, leaves, depth, depth, tree[depth]);
    }

    /** The sibling of a node below the top is read from its level, and the parent is on the next. */
    lemma SiblingIsRead(i: nat, c: nat)
      requires Valid() && i < depth && c < |tree[i]|
      ensures Sibling(c) < |tree[i]| && c / 2 < |tree[i + 1]|
      ensures tree[i][Sibling(c)] == FullTree.Full(h, LeavesOf(leaves), i, Sibling(c))
    {
      Widths();
      assert LevelOf(h, leaves, depth, i, tree[i]);
      assert |tree[i]| == 2 * |tree[i + 1]|;
    }

    /**
     * The path of any position of level 0 folds to the node of the top level above it, which is the root within the
     * depth.
     */
    method GetProof(index: nat) returns (path: seq<nat>, sides: seq<nat>)
      requires Valid() && index < |tree[0]|
      ensures |path| == |sides| == depth && Anc(index, depth) < |tree[depth]|
      ensures FullTree.IsPathTo(h, LeavesOf(leaves), index, path, sides)
      ensures Fold(h, if index < |leaves| then leaves[index] else 0, path, sides) == tree[depth][Anc(index, depth)]
      ensures index < Pow2(depth) ==> tree[depth][Anc(index, depth)] == Root()
    {
      path, sides := [], [];
      var currentIndex := index;
      Widths();
      for i := 0 to depth
        invariant |path| == |sides| == i
        invariant currentIndex == Anc(index, i) < |tree[i]|
        invariant FullTree.IsPathTo(h, LeavesOf(leaves), index, path, sides)
      {
        var isRightChild := currentIndex % 2 == 1;
        sides := sides + [if isRightChild then 1 else 0];
        var siblingIndex := if isRightChild then currentIndex - 1 else currentIndex + 1;
        SiblingIsRead(i, currentIndex);
        path := path + [tree[i][siblingIndex]];
        currentIndex := currentIndex / 2;
      }
      FullTree.PathFolds(h, LeavesOf(leaves), index, path, sides);
      assert LevelOf(h, leaves, depth, depth, tree[depth]);
      if index < Pow2(depth) {
        AncBound(index, depth, depth);
      }
    }

    /** Appends a leaf and rebuilds; unless that throws, the tree is again the full recomputation. */
    method Insert(leaf: nat) returns (index: Option<nat>)
      requires ZerosValid()
      modifies this`leaves, this`tree
      ensures ZerosValid() && leaves == old(leaves) + [leaf]
      ensures index == if Builds(|leaves|, depth) then Some(|old(leaves)|) else None
      ensures index.Some? ==> Valid() && Root() == FullTree.Full(h, LeavesOf(leaves), depth, 0)
    {
      leaves := leaves + [leaf];
      var ok := BuildTree();
      if !ok {
        return None;
      }
      RootIsFull();
      index := Some(|leaves| - 1);
    }
  }
}
