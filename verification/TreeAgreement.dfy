/** When the client's and indexer's tree and the on-chain accumulator have the same root. */
module TreeAgreement {
  import opened Words
  import opened Notes
  import opened SparseTree
  import opened CoreState
  import FullTree

  /** Above a height where every node exists, the two trees coincide. */
  lemma {:induction false} SameAbove(h: Hash2, leaves: LeafMap, depth: nat, d: nat, i: nat)
    requires 0 < d <= depth && i < Pow2(depth - d)
    requires forall j: nat :: j < Pow2(depth - 1) ==> Node(h, leaves, 1, j).Some?
    ensures Node(h, leaves, d, i) == Some(FullTree.Full(h, leaves, d, i))
    decreases d
  {
    if d == 1 {
      assert Node(h, leaves, 1, i).Some?;
      assert FullTree.Full(h, leaves, 1, i)
          == h(FullTree.Full(h, leaves, 0, 2 * i), FullTree.Full(h, leaves, 0, 2 * i + 1));
    } else {
      assert Pow2(depth - (d - 1)) == 2 * Pow2(depth - d);
      SameAbove(h, leaves, depth, d - 1, 2 * i);
      SameAbove(h, leaves, depth, d - 1, 2 * i + 1);
    }
  }

  /** With at most one free leaf the roots agree, whatever the hash. */
  lemma AgreeWhenNearlyFull(h: Hash2, leaves: seq<nat>, depth: nat)
    requires 0 < |leaves| <= Pow2(depth) < |leaves| + 2
    ensures Root(h, depth, LeavesOf(leaves)) == FullTree.Full(h, LeavesOf(leaves), depth, 0)
  {
    var m := LeavesOf(leaves);
    if depth > 0 {
      forall j: nat | j < Pow2(depth - 1)
        ensures Node(h, m, 1, j).Some?
      {
        assert 2 * j in m;
      }
      assert Pow2(depth - depth) == 1;
      SameAbove(h, m, depth, depth, 0);
    }
  }

  /** Above the leaves the nodes of both trees are outputs of the hash, or 0. */
  lemma NodesAreCanonical(read: nat -> nat, h: Hash2, leaves: LeafMap, d: nat, i: nat)
    requires BindingTree(read, h) && d > 0
    ensures read(Or0(Node(h, leaves, d, i))) == Or0(Node(h, leaves, d, i))
    ensures read(FullTree.Full(h, leaves, d, i)) == FullTree.Full(h, leaves, d, i)
  {
    assert FullTree.Full(h, leaves, d, i)
        == h(FullTree.Full(h, leaves, d - 1, 2 * i), FullTree.Full(h, leaves, d - 1, 2 * i + 1));
  }

  predicate Differ(h: Hash2, leaves: LeafMap, d: nat, i: nat) {
    Or0(Node(h, leaves, d, i)) != FullTree.Full(h, leaves, d, i)
  }

  /** Under a binding hash a node differs in the two trees when its right child does. */
  lemma DifferenceRises(read: nat -> nat, h: Hash2, leaves: LeafMap, d: nat, i: nat)
    requires BindingTree(read, h) && d > 1 && Differ(h, leaves, d - 1, 2 * i + 1)
    ensures Differ(h, leaves, d, i)
  {
    var l, r := FullTree.Full(h, leaves, d - 1, 2 * i), FullTree.Full(h, leaves, d - 1, 2 * i + 1);
    assert FullTree.Full(h, leaves, d, i) == h(l, r) != 0;
    NodesAreCanonical(read, h, leaves, d - 1, 2 * i + 1);
  }

  /** An absent node counts as 0, which no hash is. */
  lemma AbsentDiffers(read: nat -> nat, h: Hash2, leaves: LeafMap, i: nat)
    requires BindingTree(read, h) && Node(h, leaves, 1, i).None?
    ensures Differ(h, leaves, 1, i)
  {
    assert FullTree.Full(h, leaves, 1, i)
        == h(FullTree.Full(h, leaves, 0, 2 * i), FullTree.Full(h, leaves, 0, 2 * i + 1));
  }

  /** When the last nodes of height 1 differ, those of all heights do. */
  lemma {:induction false} LastNodesDiffer(read: nat -> nat, h: Hash2, leaves: LeafMap, depth: nat, d: nat)
    requires 0 < d <= depth && BindingTree(read, h) && Differ(h, leaves, 1, Pow2(depth - 1) - 1)
    ensures Differ(h, leaves, d, Pow2(depth - d) - 1)
  {
    if d > 1 {
      LastNodesDiffer(read, h, leaves, depth, d - 1);
      var i: nat := Pow2(depth - d) - 1;
      assert Pow2(depth - (d - 1)) - 1 == 2 * i + 1;
      DifferenceRises(read, h, leaves, d, i);
    }
  }

  lemma DifferWithRoom(read: nat -> nat, h: Hash2, leaves: seq<nat>, depth: nat)
    requires BindingTree(read, h) && |leaves| + 2 <= Pow2(depth)
    ensures Root(h, depth, LeavesOf(leaves)) != FullTree.Full(h, LeavesOf(leaves), depth, 0)
  {
    var last: nat := Pow2(depth - 1) - 1;
    assert 2 * last !in LeavesOf(leaves) && 2 * last + 1 !in LeavesOf(leaves);
    AbsentDiffers(read, h, LeavesOf(leaves), last);
    LastNodesDiffer(read, h, LeavesOf(leaves), depth, depth);
  }

  /**
   * Under any binding hash the client's and indexer's root is the contract's current root exactly when at most one leaf
   * is free; before the first insertion, exactly when the contract's initial constant is the zero hash of the depth.
   */
  lemma RootsAgreeIff(cfg: Config, read: nat -> nat, leaves: seq<Leaf>)
    requires BindingTree(read, cfg.h) && |leaves| <= Pow2(cfg.depth)
    ensures leaves != [] ==>
              (RootAfter(cfg, leaves) == FullTree.Full(cfg.h, LeavesOf(Cms(leaves)), cfg.depth, 0)
               <==> |leaves| + 2 > Pow2(cfg.depth))
    ensures leaves == [] ==>
              (RootAfter(cfg, leaves) == FullTree.Full(cfg.h, LeavesOf(Cms(leaves)), cfg.depth, 0)
               <==> cfg.emptyRoot == FullTree.ZeroHash(cfg.h, cfg.depth))
  {
    if leaves == [] {
      FullTree.EmptySubtree(cfg.h, LeavesOf(Cms(leaves)), cfg.depth, 0);
    } else if |leaves| + 2 > Pow2(cfg.depth) {
      AgreeWhenNearlyFull(cfg.h, Cms(leaves), cfg.depth);
    } else {
      DifferWithRoom(read, cfg.h, Cms(leaves), cfg.depth);
    }
  }
}
