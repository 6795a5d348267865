/**
 * The reference tree of the on-chain accumulator: a node exists when a leaf below it does,
 * and an absent node counts as 0 at every level.
 */
module SparseTree {
  import opened Words
  import opened Notes

  type LeafMap = map<nat, nat>

  /** The node of height d at position i, or None when no leaf lies below it. */
  function Node(h: Hash2, leaves: LeafMap, d: nat, i: nat): Option<nat>
    decreases d
  {
    if d == 0 then Get(leaves, i)
    else
      var l := Node(h, leaves, d - 1, 2 * i);
      var r := Node(h, leaves, d - 1, 2 * i + 1);
      if l.None? && r.None? then None else Some(h(Or0(l), Or0(r)))
  }

  function Root(h: Hash2, depth: nat, leaves: LeafMap): nat {
    Or0(Node(h, leaves, depth, 0))
  }

  function LeavesOf(s: seq<nat>): LeafMap {
    map i | 0 <= i < |s| :: s[i]
  }

  /** The position, d levels up, of the node above leaf i. */
  function Anc(i: nat, d: nat): nat {
    if d == 0 then i else Anc(i, d - 1) / 2
  }

  function Sibling(i: nat): nat {
    if i % 2 == 0 then i + 1 else i - 1
  }

  // ---- folding a path ------------------------------------------------------

  function FoldStep(h: Hash2, current: nat, sibling: nat, side: nat): nat {
    if side == 0 then h(current, sibling) else h(sibling, current)
  }

  /** The root that a leaf and a path with side bits lead to, lowest level first. */
  function Fold(h: Hash2, leaf: nat, path: seq<nat>, sides: seq<nat>): nat
    requires |path| == |sides|
    decreases |path|
  {
    if |path| == 0 then leaf
    else
      var n := |path| - 1;
      FoldStep(h, Fold(h, leaf, path[..n], sides[..n]), path[n], sides[n])
  }

  // ---- which nodes a leaf reaches -------------------------------------------

  lemma {:induction false} AncBound(i: nat, d: nat, depth: nat)
    requires d <= depth && i < Pow2(depth)
    ensures Anc(i, d) < Pow2(depth - d)
  {
    if d > 0 {
      AncBound(i, d - 1, depth);
    }
  }

  /** A node exists exactly when some leaf lies below it. */
  lemma {:induction false} PresentIff(h: Hash2, leaves: LeafMap, d: nat, i: nat)
    ensures Node(h, leaves, d, i).Some? <==> exists j :: j in leaves && Anc(j, d) == i
    decreases d
  {
    if d == 0 {
      assert Get(leaves, i).Some? ==> Anc(i, 0) == i;
    } else {
      PresentIff(h, leaves, d - 1, 2 * i);
      PresentIff(h, leaves, d - 1, 2 * i + 1);
      forall j | j in leaves
        ensures Anc(j, d) == i <==> Anc(j, d - 1) == 2 * i || Anc(j, d - 1) == 2 * i + 1
      {}
    }
  }

  /** Changing one leaf leaves every node that is not above it unchanged. */
  lemma {:induction false} OffPathUnchanged(h: Hash2, leaves: LeafMap, idx: nat, leaf: nat, d: nat, i: nat)
    requires i != Anc(idx, d)
    ensures Node(h, leaves[idx := leaf], d, i) == Node(h, leaves, d, i)
    decreases d
  {
    if d > 0 {
      OffPathUnchanged(h, leaves, idx, leaf, d - 1, 2 * i);
      OffPathUnchanged(h, leaves, idx, leaf, d - 1, 2 * i + 1);
    }
  }

  lemma {:induction false} OnPathPresent(h: Hash2, leaves: LeafMap, idx: nat, d: nat)
    requires idx in leaves
    ensures Node(h, leaves, d, Anc(idx, d)).Some?
    decreases d
  {
    if d > 0 {
      OnPathPresent(h, leaves, idx, d - 1);
      assert Anc(idx, d - 1) == 2 * Anc(idx, d) || Anc(idx, d - 1) == 2 * Anc(idx, d) + 1;
    }
  }

  // ---- paths ------------------------------------------------------------------

  /** `path` and `sides` list the sibling and the side bit of every node above `target`, lowest level first. */
  ghost predicate IsPathTo(h: Hash2, leaves: LeafMap, target: nat, path: seq<nat>, sides: seq<nat>) {
    && |path| == |sides|
    && forall k: nat :: k < |path| ==>
                          path[k] == Or0(Node(h, leaves, k, Sibling(Anc(target, k)))) && sides[k] == Anc(target, k) % 2
  }

  /** The path of a leaf folds to the node it ends under. */
  lemma {:induction false} PathFolds(h: Hash2, leaves: LeafMap, target: nat, path: seq<nat>, sides: seq<nat>)
    requires target in leaves && IsPathTo(h, leaves, target, path, sides)
    ensures Node(h, leaves, |path|, Anc(target, |path|)) == Some(Fold(h, leaves[target], path, sides))
    decreases |path|
  {
    if |path| > 0 {
      var n := |path| - 1;
      PathFolds(h, leaves, target, path[..n], sides[..n]);
      var a, c := Anc(target, n + 1), Anc(target, n);
      if c % 2 == 0 {
        assert c == 2 * a && Sibling(c) == 2 * a + 1;
      } else {
        assert c == 2 * a + 1 && Sibling(c) == 2 * a;
      }
    }
  }

  /** The leaf position below node i that the side bits lead to, highest level last. */
  function PathIndex(i: nat, sides: seq<nat>): nat
    decreases |sides|
  {
    if sides == [] then i
    else
      var n := |sides| - 1;
      PathIndex(if sides[n] == 0 then 2 * i else 2 * i + 1, sides[..n])
  }

  /**
   * With a binding hash, any path that folds a non-zero value to a node shows the leaf at its position to be read as
   * that value.
   */
  lemma {:induction false} FoldProvesMembership(read: nat -> nat, h: Hash2, leaves: LeafMap, i: nat, leaf: nat,
                                                path: seq<nat>, sides: seq<nat>)
    requires BindingTree(read, h) && read(leaf) != 0 && |path| == |sides|
    requires read(Or0(Node(h, leaves, |path|, i))) == read(Fold(h, leaf, path, sides))
    ensures PathIndex(i, sides) in leaves && read(leaves[PathIndex(i, sides)]) == read(leaf)
    decreases |path|
  {
    if |path| > 0 {
      var n := |path| - 1;
      var child := if sides[n] == 0 then 2 * i else 2 * i + 1;
      FoldProvesMembership(read, h, leaves, child, leaf, path[..n], sides[..n]);
    }
  }

  /** With a binding hash two trees with one root have leaves that are read alike, an absent one as 0. */
  lemma {:induction false} RootDeterminesLeaves(read: nat -> nat, h: Hash2, a: LeafMap, b: LeafMap, d: nat, i: nat,
                                                j: nat)
    requires BindingTree(read, h) && Anc(j, d) == i
    requires read(Or0(Node(h, a, d, i))) == read(Or0(Node(h, b, d, i)))
    ensures read(Or0(Get(a, j))) == read(Or0(Get(b, j)))
    decreases d
  {
    if d > 0 {
      ChildReadsAlike(read, h, a, b, d, i, Anc(j, d - 1));
      RootDeterminesLeaves(read, h, a, b, d - 1, Anc(j, d - 1), j);
    }
  }

  lemma ChildReadsAlike(read: nat -> nat, h: Hash2, a: LeafMap, b: LeafMap, d: nat, i: nat, child: nat)
    requires BindingTree(read, h) && d > 0 && child / 2 == i
    requires read(Or0(Node(h, a, d, i))) == read(Or0(Node(h, b, d, i)))
    ensures read(Or0(Node(h, a, d - 1, child))) == read(Or0(Node(h, b, d - 1, child)))
  {
    assert child == 2 * i || child == 2 * i + 1;
    var left, right :| Recovers(read, h, left, right);
  }

  // ---- heap-indexed storage --------------------------------------------------

  /** The storage index of the node of height d at position i: node 1 is the root, node k has children 2k and 2k+1. */
  function Key(depth: nat, d: nat, i: nat): nat
    requires d <= depth
  {
    Pow2(depth - d) + i
  }

  lemma {:induction false} KeyInjective(depth: nat, d: nat, i: nat, e: nat, j: nat)
    requires d <= depth && e <= depth && i < Pow2(depth - d) && j < Pow2(depth - e)
    requires Key(depth, d, i) == Key(depth, e, j)
    ensures d == e && i == j
  {
    if d < e {
      Pow2Monotone(depth - e, depth - d);
    } else if e < d {
      Pow2Monotone(depth - d, depth - e);
    }
  }

  /** Every storage index below 2^(depth+1) is the key of exactly one node. */
  lemma {:induction false} KeyDecomposition(depth: nat, k: nat) returns (d: nat, i: nat)
    requires 0 < k < Pow2(depth + 1)
    ensures d <= depth && i < Pow2(depth - d) && Key(depth, d, i) == k
  {
    if k >= Pow2(depth) {
      d, i := 0, k - Pow2(depth);
    } else {
      d, i := KeyDecomposition(depth - 1, k);
      d := d + 1;
    }
  }

  /** Storage holds the nodes of `after` up to height d and those of `before` above it. */
  ghost predicate Mixed(h: Hash2, depth: nat, nodes: map<nat, nat>, after: LeafMap, before: LeafMap, d: int) {
    forall e: nat, i: nat :: e <= depth && i < Pow2(depth - e) ==>
                               Get(nodes, Key(depth, e, i)) == Node(h, if e <= d then after else before, e, i)
  }

  predicate KeysInRange(depth: nat, nodes: map<nat, nat>) {
    forall k :: k in nodes ==> 0 < k < Pow2(depth + 1)
  }

  /** Storage is exactly the sparse tree over `leaves`: each node under its key, and nothing else. */
  ghost predicate Represents(h: Hash2, depth: nat, nodes: map<nat, nat>, leaves: LeafMap) {
    && Mixed(h, depth, nodes, leaves, leaves, depth)
    && KeysInRange(depth, nodes)
  }

  /** Every node that is not above leaf `idx` is stored as before. */
  ghost predicate SameOffPath(depth: nat, before: map<nat, nat>, after: map<nat, nat>, idx: nat) {
    forall d: nat, i: nat :: d <= depth && i < Pow2(depth - d) && i != Anc(idx, d) ==>
                               Get(after, Key(depth, d, i)) == Get(before, Key(depth, d, i))
  }

  lemma EmptyRepresents(h: Hash2, depth: nat)
    ensures Represents(h, depth, map[], map[])
  {
    forall e: nat, i: nat
      ensures Node(h, map[], e, i) == None
    {
      PresentIff(h, map[], e, i);
    }
  }

  /** Writing the leaf brings height 0 up to date. */
  lemma LeafWritten(h: Hash2, depth: nat, nodes: map<nat, nat>, leaves: LeafMap, idx: nat, leaf: nat)
    requires idx < Pow2(depth)
    requires Represents(h, depth, nodes, leaves)
    ensures Mixed(h, depth, nodes[Key(depth, 0, idx) := leaf], leaves[idx := leaf], leaves, 0)
    ensures KeysInRange(depth, nodes[Key(depth, 0, idx) := leaf])
  {
    var nodes' := nodes[Key(depth, 0, idx) := leaf];
    forall e: nat, i: nat | e <= depth && i < Pow2(depth - e)
      ensures Get(nodes', Key(depth, e, i)) == Node(h, if e <= 0 then leaves[idx := leaf] else leaves, e, i)
    {
      assert Get(nodes, Key(depth, e, i)) == Node(h, leaves, e, i);
      if Key(depth, e, i) == Key(depth, 0, idx) {
        KeyInjective(depth, e, i, 0, idx);
      }
    }
  }

  /** Rehashing the one node above `idx` brings the next height up to date. */
  lemma ParentWritten(h: Hash2, depth: nat, nodes: map<nat, nat>, leaves: LeafMap, idx: nat, leaf: nat, d: nat)
    requires d < depth && idx < Pow2(depth)
    requires Mixed(h, depth, nodes, leaves[idx := leaf], leaves, d)
    ensures Anc(idx, d) < Pow2(depth - d) && Anc(idx, d + 1) < Pow2(depth - (d + 1))
    ensures var a := Anc(idx, d + 1);
            var v := h(Or0(Get(nodes, Key(depth, d, 2 * a))), Or0(Get(nodes, Key(depth, d, 2 * a + 1))));
            Mixed(h, depth, nodes[Key(depth, d + 1, a) := v], leaves[idx := leaf], leaves, d + 1)
  {
    AncBound(idx, d, depth);
    AncBound(idx, d + 1, depth);
    var a := Anc(idx, d + 1);
    var after := leaves[idx := leaf];
    var v := h(Or0(Get(nodes, Key(depth, d, 2 * a))), Or0(Get(nodes, Key(depth, d, 2 * a + 1))));
    var nodes' := nodes[Key(depth, d + 1, a) := v];
    assert Node(h, after, d + 1, a) == Some(v) by {
      OnPathPresent(h, after, idx, d + 1);
      assert Get(nodes, Key(depth, d, 2 * a)) == Node(h, after, d, 2 * a);
      assert Get(nodes, Key(depth, d, 2 * a + 1)) == Node(h, after, d, 2 * a + 1);
    }
    forall e: nat, i: nat | e <= depth && i < Pow2(depth - e)
      ensures Get(nodes', Key(depth, e, i)) == Node(h, if e <= d + 1 then after else leaves, e, i)
    {
      assert Get(nodes, Key(depth, e, i)) == Node(h, if e <= d then after else leaves, e, i);
      if Key(depth, e, i) == Key(depth, d + 1, a) {
        KeyInjective(depth, e, i, d + 1, a);
      } else if e == d + 1 {
        OffPathUnchanged(h, leaves, idx, leaf, e, i);
      }
    }
  }

  lemma ChildKeys(depth: nat, d: nat, i: nat)
    requires 0 < d <= depth && i < Pow2(depth - d)
    ensures 2 * i + 1 < Pow2(depth - (d - 1))
    ensures Key(depth, d - 1, 2 * i) == 2 * Key(depth, d, i)
    ensures Key(depth, d - 1, 2 * i + 1) == 2 * Key(depth, d, i) + 1
  {}

  lemma StoredNode(h: Hash2, depth: nat, nodes: map<nat, nat>, leaves: LeafMap, d: nat, i: nat)
    requires Represents(h, depth, nodes, leaves)
    requires d <= depth && i < Pow2(depth - d)
    ensures Get(nodes, Key(depth, d, i)) == Node(h, leaves, d, i)
  {}

  /** The hash the contract writes above `node`, its sibling being on the other side. */
  function ParentValue(h: Hash2, nodes: map<nat, nat>, node: nat): nat
    requires node > 0
  {
    if node % 2 == 0 then h(Or0(Get(nodes, node)), Or0(Get(nodes, node + 1)))
    else h(Or0(Get(nodes, node - 1)), Or0(Get(nodes, node)))
  }

  lemma HeapParent(depth: nat, d: nat, c: nat)
    requires d < depth && c < Pow2(depth - d)
    ensures 0 < Key(depth, d, c) && c / 2 < Pow2(depth - (d + 1))
    ensures Key(depth, d, c) / 2 == Key(depth, d + 1, c / 2)
    ensures Key(depth, d, c) % 2 == c % 2
  {
    ChildKeys(depth, d + 1, c / 2);
  }

  lemma KeyBound(depth: nat, d: nat, i: nat)
    requires d <= depth && i < Pow2(depth - d)
    ensures 0 < Key(depth, d, i) < Pow2(depth + 1)
  {
    if d > 0 {
      Pow2Monotone(depth - d, depth + 1);
    }
  }

  lemma ParentValueOfChildren(h: Hash2, depth: nat, nodes: map<nat, nat>, d: nat, c: nat)
    requires d < depth && c < Pow2(depth - d)
    ensures 0 < Key(depth, d, c)
    ensures ParentValue(h, nodes, Key(depth, d, c))
            == h(Or0(Get(nodes, Key(depth, d, 2 * (c / 2)))), Or0(Get(nodes, Key(depth, d, 2 * (c / 2) + 1))))
  {
    HeapParent(depth, d, c);
  }

  /** The rewrite of leaf `idx` has reached height d: `node` is above the leaf, and storage is up to date that far. */
  ghost predicate Rewriting(h: Hash2, depth: nat, nodes: map<nat, nat>, leaves: LeafMap, idx: nat, leaf: nat, d: nat,
                            node: nat) {
    && d <= depth && Anc(idx, d) < Pow2(depth - d) && node == Key(depth, d, Anc(idx, d))
    && Mixed(h, depth, nodes, leaves[idx := leaf], leaves, d)
    && KeysInRange(depth, nodes)
  }

  lemma RewriteStarts(h: Hash2, depth: nat, nodes: map<nat, nat>, leaves: LeafMap, idx: nat, leaf: nat)
    requires idx < Pow2(depth) && Represents(h, depth, nodes, leaves)
    ensures Rewriting(h, depth, nodes[Pow2(depth) + idx := leaf], leaves, idx, leaf, 0, Pow2(depth) + idx)
  {
    LeafWritten(h, depth, nodes, leaves, idx, leaf);
  }

  /** One round of the rewrite: from the node above `idx` at height d to its parent. */
  lemma RewriteStep(h: Hash2, depth: nat, nodes: map<nat, nat>, leaves: LeafMap, idx: nat, leaf: nat, d: nat, node: nat)
    requires idx < Pow2(depth) && node > 1 && Rewriting(h, depth, nodes, leaves, idx, leaf, d, node)
    ensures Rewriting(h, depth, nodes[node / 2 := ParentValue(h, nodes, node)], leaves, idx, leaf, d + 1, node / 2)
  {
    assert d < depth;
    var parent, value := node / 2, ParentValue(h, nodes, node);
    assert parent == Key(depth, d + 1, Anc(idx, d + 1)) && Anc(idx, d + 1) < Pow2(depth - (d + 1)) by {
      HeapParent(depth, d, Anc(idx, d));
    }
    assert KeysInRange(depth, nodes[parent := value]) by {
      KeyBound(depth, d + 1, Anc(idx, d + 1));
    }
    assert Mixed(h, depth, nodes[parent := value], leaves[idx := leaf], leaves, d + 1) by {
      ParentValueOfChildren(h, depth, nodes, d, Anc(idx, d));
      ParentWritten(h, depth, nodes, leaves, idx, leaf, d);
    }
  }

  /** A stored node hashes its two stored children, of which it has one at least. */
  predicate HashesChildren(h: Hash2, nodes: map<nat, nat>, k: nat) {
    && k in nodes
    && nodes[k] == h(Or0(Get(nodes, 2 * k)), Or0(Get(nodes, 2 * k + 1)))
    && (2 * k in nodes || 2 * k + 1 in nodes)
  }

  /** Every stored inner node is the hash of its two children, an absent child counting as 0. */
  lemma StoredNodeHashesChildren(h: Hash2, depth: nat, nodes: map<nat, nat>, leaves: LeafMap, k: nat)
    requires Represents(h, depth, nodes, leaves)
    requires k in nodes && k < Pow2(depth)
    ensures HashesChildren(h, nodes, k)
  {
    var d, i := KeyDecomposition(depth, k);
    InnerNode(h, depth, nodes, leaves, d, i);
  }

  lemma InnerNode(h: Hash2, depth: nat, nodes: map<nat, nat>, leaves: LeafMap, d: nat, i: nat)
    requires Represents(h, depth, nodes, leaves)
    requires d <= depth && i < Pow2(depth - d) && Key(depth, d, i) < Pow2(depth)
    requires Key(depth, d, i) in nodes
    ensures HashesChildren(h, nodes, Key(depth, d, i))
  {
    assert d > 0;
    ChildKeys(depth, d, i);
    StoredNode(h, depth, nodes, leaves, d, i);
    StoredNode(h, depth, nodes, leaves, d - 1, 2 * i);
    StoredNode(h, depth, nodes, leaves, d - 1, 2 * i + 1);
  }
}
