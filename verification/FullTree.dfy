/**
 * The reference tree of the browser client and the indexer: every node exists, a missing leaf
 * is 0, and an empty subtree is the zero hash of its height.
 */
module FullTree {
  import opened Words
  import opened SparseTree

  function Full(h: Hash2, leaves: LeafMap, d: nat, i: nat): nat
    decreases d
  {
    if d == 0 then Or0(Get(leaves, i)) else h(Full(h, leaves, d - 1, 2 * i), Full(h, leaves, d - 1, 2 * i + 1))
  }

  function ZeroHash(h: Hash2, d: nat): nat {
    if d == 0 then 0 else h(ZeroHash(h, d - 1), ZeroHash(h, d - 1))
  }

  /** A subtree without leaves is the zero hash of its height. */
  lemma {:induction false} EmptySubtree(h: Hash2, leaves: LeafMap, d: nat, i: nat)
    requires forall j :: j in leaves ==> Anc(j, d) != i
    ensures Full(h, leaves, d, i) == ZeroHash(h, d)
    decreases d
  {
    if d == 0 {
      assert Anc(i, 0) == i;
    } else {
      forall j | j in leaves
        ensures Anc(j, d - 1) != 2 * i && Anc(j, d - 1) != 2 * i + 1
      {
        assert Anc(j, d) != i;
      }
      EmptySubtree(h, leaves, d - 1, 2 * i);
      EmptySubtree(h, leaves, d - 1, 2 * i + 1);
    }
  }

  /** `i` lies right of every node of height d above the first n leaves. */
  lemma {:induction false} RightOfPrefix(n: nat, d: nat, i: nat, j: nat)
    requires i * Pow2(d) >= n && j < n
    ensures Anc(j, d) < i
    decreases d
  {
    if d > 0 {
      assert (2 * i) * Pow2(d - 1) == i * Pow2(d);
      RightOfPrefix(n, d - 1, 2 * i, j);
    }
  }

  ghost predicate IsPathTo(h: Hash2, leaves: LeafMap, target: nat, path: seq<nat>, sides: seq<nat>) {
    && |path| == |sides|
    && forall k: nat :: k < |path| ==>
                          path[k] == Full(h, leaves, k, Sibling(Anc(target, k))) && sides[k] == Anc(target, k) % 2
  }

  lemma StepUp(h: Hash2, leaves: LeafMap, d: nat, c: nat)
    ensures FoldStep(h, Full(h, leaves, d, c), Full(h, leaves, d, Sibling(c)), c % 2) == Full(h, leaves, d + 1, c / 2)
  {
    var a := c / 2;
    if c % 2 == 0 {
      assert c == 2 * a && Sibling(c) == 2 * a + 1;
    } else {
      assert c == 2 * a + 1 && Sibling(c) == 2 * a;
    }
  }

  /** The path of any position, occupied or not, folds to the node it ends under. */
  lemma {:induction false} PathFolds(h: Hash2, leaves: LeafMap, target: nat, path: seq<nat>, sides: seq<nat>)
    requires IsPathTo(h, leaves, target, path, sides)
    ensures Fold(h, Full(h, leaves, 0, target), path, sides) == Full(h, leaves, |path|, Anc(target, |path|))
    decreases |path|
  {
    if |path| > 0 {
      var n := |path| - 1;
      PathFolds(h, leaves, target, path[..n], sides[..n]);
      StepUp(h, leaves, n, Anc(target, n));
    }
  }

  /** `level` lists the first n nodes of height d. */
  ghost predicate IsLevel(h: Hash2, leaves: LeafMap, d: nat, n: nat, level: seq<nat>) {
    |level| == n && forall i: nat :: i < n ==> level[i] == Full(h, leaves, d, i)
  }
}
