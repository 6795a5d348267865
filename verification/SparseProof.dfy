/** The end-to-end tests' proof builder: root and path of one leaf, computed level by level from a map. */
module SparseProof {
  import opened Words
  import opened SparseTree

  /** `level` holds exactly the nodes of height d. */
  ghost predicate IsLevel(h: Hash2, leaves: LeafMap, d: nat, level: map<nat, nat>) {
    forall i: nat :: Get(level, i) == Node(h, leaves, d, i)
  }

  /** `next` holds exactly the nodes of height d + 1 that have a child in `done`. */
  ghost predicate IsPartialLevel(h: Hash2, leaves: LeafMap, d: nat, done: set<nat>, next: map<nat, nat>) {
    forall i: nat :: Get(next, i) ==
                     if 2 * i in done || 2 * i + 1 in done then Node(h, leaves, d + 1, i) else None
  }

  lemma LevelEntryDone(h: Hash2, leaves: LeafMap, d: nat, cur: map<nat, nat>, done: set<nat>, next: map<nat, nat>,
                       idx: nat)
    requires IsLevel(h, leaves, d, cur) && idx in cur
    requires IsPartialLevel(h, leaves, d, done, next)
    ensures idx / 2 in next ==> IsPartialLevel(h, leaves, d, done + {idx}, next)
    ensures var sib := Or0(Get(cur, Sibling(idx)));
            var v := if idx % 2 == 1 then h(sib, cur[idx]) else h(cur[idx], sib);
            idx / 2 !in next ==> IsPartialLevel(h, leaves, d, done + {idx}, next[idx / 2 := v])
  {
    var p := idx / 2;
    assert Get(cur, idx) == Node(h, leaves, d, idx);
    assert Get(cur, Sibling(idx)) == Node(h, leaves, d, Sibling(idx));
    assert idx == 2 * p || idx == 2 * p + 1;
    var sib := Or0(Get(cur, Sibling(idx)));
    var v := if idx % 2 == 1 then h(sib, cur[idx]) else h(cur[idx], sib);
    assert Node(h, leaves, d + 1, p) == Some(v);
    forall i: nat
      ensures p in next
              ==> Get(next, i)
                  == if 2 * i in done + {idx} || 2 * i + 1 in done + {idx} then Node(h, leaves, d + 1, i) else None
      ensures p !in next
              ==> Get(next[p := v], i)
                  == if 2 * i in done + {idx} || 2 * i + 1 in done + {idx} then Node(h, leaves, d + 1, i) else None
    {
      assert Get(next, i) == if 2 * i in done || 2 * i + 1 in done then Node(h, leaves, d + 1, i) else None;
      if i != p {
        assert 2 * i != idx && 2 * i + 1 != idx;
      }
    }
  }

  lemma LevelDone(h: Hash2, leaves: LeafMap, d: nat, cur: map<nat, nat>, next: map<nat, nat>)
    requires IsLevel(h, leaves, d, cur)
    requires IsPartialLevel(h, leaves, d, cur.Keys, next)
    ensures IsLevel(h, leaves, d + 1, next)
  {
    forall i: nat
      ensures Get(next, i) == Node(h, leaves, d + 1, i)
    {
      assert Get(cur, 2 * i) == Node(h, leaves, d, 2 * i);
      assert Get(cur, 2 * i + 1) == Node(h, leaves, d, 2 * i + 1);
    }
  }

  /** The hash map of the next level, each pair hashed once. */
  method ParentLevel(h: Hash2, cur: map<nat, nat>, ghost leaves: LeafMap, ghost d: nat) returns (next: map<nat, nat>)
    requires IsLevel(h, leaves, d, cur)
    ensures IsLevel(h, leaves, d + 1, next)
  {
    next := map[];
    var rest := cur.Keys;
    while rest != {}
      invariant rest <= cur.Keys
      invariant IsPartialLevel(h, leaves, d, cur.Keys - rest, next)
      decreases rest
    {
      var idx :| idx in rest;
      LevelEntryDone(h, leaves, d, cur, cur.Keys - rest, next, idx);
      assert cur.Keys - (rest - {idx}) == (cur.Keys - rest) + {idx};
      if idx / 2 !in next {
        var isR := idx % 2 == 1;
        var si := if isR then idx - 1 else idx + 1;
        var sv := if si in cur then cur[si] else 0;
        next := next[idx / 2 := if isR then h(sv, cur[idx]) else h(cur[idx], sv)];
      }
      rest := rest - {idx};
    }
    assert cur.Keys - rest == cur.Keys;
    LevelDone(h, leaves, d, cur, next);
  }

  /** The sibling and side bit read at height d extend the path by one level. */
  lemma PathGrows(h: Hash2, leaves: LeafMap, target: nat, path: seq<nat>, sides: seq<nat>, cur: map<nat, nat>)
    requires IsPathTo(h, leaves, target, path, sides) && IsLevel(h, leaves, |path|, cur)
    ensures var ci := Anc(target, |path|);
            IsPathTo(h, leaves, target, path + [Or0(Get(cur, Sibling(ci)))], sides + [ci % 2])
  {
    assert Get(cur, Sibling(Anc(target, |path|))) == Node(h, leaves, |path|, Sibling(Anc(target, |path|)));
  }

  lemma FoldsToRoot(h: Hash2, leaves: LeafMap, target: nat, depth: nat, path: seq<nat>, sides: seq<nat>)
    requires target in leaves && target < Pow2(depth) && |path| == depth && IsPathTo(h, leaves, target, path, sides)
    ensures Fold(h, leaves[target], path, sides) == Root(h, depth, leaves)
  {
    PathFolds(h, leaves, target, path, sides);
    AncBound(target, depth, depth);
  }

  /**
   * The root is the one the contract's tree has after inserting the same leaves, and the
   * path of a leaf within the tree folds to it.
   */
  method SparseProof(h: Hash2, leaves: seq<nat>, target: nat, depth: nat)
    returns (root: nat, path: seq<nat>, sides: seq<nat>)
    ensures |path| == |sides| == depth
    ensures root == Root(h, depth, LeavesOf(leaves))
    ensures forall k :: 0 <= k < depth ==> sides[k] == Anc(target, k) % 2
    ensures target < |leaves| && target < Pow2(depth) ==> Fold(h, leaves[target], path, sides) == root
  {
    ghost var m := LeavesOf(leaves);
    var cur: map<nat, nat> := LeavesOf(leaves);
    path, sides := [], [];
    var ci := target;
    for d := 0 to depth
      invariant |path| == d
      invariant ci == Anc(target, d)
      invariant IsLevel(h, m, d, cur)
      invariant IsPathTo(h, m, target, path, sides)
    {
      var isRight := ci % 2 == 1;
      var sibIdx := if isRight then ci - 1 else ci + 1;
      PathGrows(h, m, target, path, sides, cur);
      sides := sides + [if isRight then 1 else 0];
      path := path + [if sibIdx in cur then cur[sibIdx] else 0];
      cur := ParentLevel(h, cur, m, d);
      ci := ci / 2;
    }
    assert Get(cur, 0) == Node(h, m, depth, 0);
    root := if 0 in cur then cur[0] else 0;
    if target < |leaves| && target < Pow2(depth) {
      FoldsToRoot(h, m, target, depth, path, sides);
    }
  }
}
