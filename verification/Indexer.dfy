/** The indexer's root reconstruction from the stored leaf rows. */
module Indexer {
  import opened Words
  import opened SparseTree
  import FullTree

  /** The longest array that can be allocated. */
  const MAX_ARRAY_LENGTH: nat := 0xffff_ffff

  /**
   * Recomputes every node of every level; on contiguous rows this is the browser client's root. None is the exception
   * that no array is long enough for level 0.
   */
  method ComputeRoot(h: Hash2, depth: nat, rows: map<nat, nat>) returns (root: Option<nat>)
    requires forall i :: i in rows ==> i < Pow2(depth)
    ensures root == if depth < 32 then Some(FullTree.Full(h, rows, depth, 0)) else None
  {
    LongestLevel(depth);
    if Pow2(depth) > MAX_ARRAY_LENGTH {
      return None;
    }
    var level := PlaceRows(Pow2(depth), rows);
    assert FullTree.IsLevel(h, rows, 0, Pow2(depth), level[..]);
    for d := 0 to depth
      invariant fresh(level)
      invariant FullTree.IsLevel(h, rows, d, Pow2(depth - d), level[..])
    {
      level := HashLevel(h, d, Pow2(depth - d - 1), rows, level);
    }
    assert level[..][0] == FullTree.Full(h, rows, depth, 0);
    root := Some(if 0 < level.Length then level[0] else 0);
  }

  lemma LongestLevel(depth: nat)
    ensures Pow2(depth) > MAX_ARRAY_LENGTH <==> depth >= 32
  {
    assert Pow2(8) == 0x100;
    assert Pow2(16) == 0x1_0000;
    assert Pow2(24) == 0x100_0000;
    assert Pow2(31) == 0x8000_0000;
    if depth < 31 {
      Pow2Monotone(depth, 31);
    } else if depth > 32 {
      Pow2Monotone(32, depth);
    }
  }

  /** Level 0: the rows at their indices, 0 elsewhere. */
  method PlaceRows(size: nat, rows: map<nat, nat>) returns (level: array<nat>)
    requires forall i :: i in rows ==> i < size
    ensures fresh(level) && level.Length == size
    ensures forall i :: 0 <= i < size ==> level[i] == Or0(Get(rows, i))
  {
    level := new nat[size](_ => 0);
    var rest := rows.Keys;
    while rest != {}
      invariant rest <= rows.Keys
      invariant forall i :: 0 <= i < level.Length ==> level[i] == if i in rows && i !in rest then rows[i] else 0
      decreases rest
    {
      var idx :| idx in rest;
      level[idx] := rows[idx];
      rest := rest - {idx};
    }
  }

  /** The next level, each pair hashed, a missing partner counting as 0. */
  method HashLevel(h: Hash2, d: nat, ghost half: nat, ghost rows: map<nat, nat>, level: array<nat>)
    returns (next: array<nat>)
    requires FullTree.IsLevel(h, rows, d, 2 * half, level[..])
    ensures fresh(next) && FullTree.IsLevel(h, rows, d + 1, half, next[..])
  {
    var nextSize := (level.Length + 1) / 2;
    next := new nat[nextSize](_ => 0);
    for i := 0 to nextSize
      invariant FullTree.IsLevel(h, rows, d, 2 * half, level[..])
      invariant forall j :: 0 <= j < i ==> next[j] == FullTree.Full(h, rows, d + 1, j)
    {
      var l := if 2 * i < level.Length then level[2 * i] else 0;
      var r := if 2 * i + 1 < level.Length then level[2 * i + 1] else 0;
      assert level[..][2 * i] == FullTree.Full(h, rows, d, 2 * i);
      assert level[..][2 * i + 1] == FullTree.Full(h, rows, d, 2 * i + 1);
      next[i] := h(l, r);
    }
  }
}
