/** Client-built entry witnesses and when the association-set provider accepts them. */
module Admission {
  import opened Words
  import opened BigEndian
  import opened SparseTree
  import opened AspGate
  import opened ClientMerkle
  import opened Sorting
  import FullTree

  datatype NonMembershipProof = NonMembershipProof(
    lowerLeaf: nat,
    upperLeaf: nat,
    lowerPath: seq<nat>,
    lowerIdx: seq<nat>,
    upperPath: seq<nat>,
    upperIdx: seq<nat>
  )

  /** x is the greatest leaf not above v, or 0 when every leaf is above v. */
  ghost predicate IsLowerBound(leaves: seq<nat>, v: nat, x: nat) {
    if exists l :: l in leaves && l <= v
    then x in leaves && x <= v && forall l :: l in leaves && l <= v ==> l <= x
    else x == 0
  }

  /** x is the least leaf above v, or 0 when no leaf is above v. */
  ghost predicate IsUpperBound(leaves: seq<nat>, v: nat, x: nat) {
    if exists l :: l in leaves && l > v
    then x in leaves && x > v && forall l :: l in leaves && l > v ==> x <= l
    else x == 0
  }

  /** Position k of level 0 holds x, as a leaf or as padding. */
  predicate HoldsAt(leaves: seq<nat>, k: nat, x: nat) {
    Or0(Get(LeavesOf(leaves), k)) == x
  }

  /** x is at one of the first n positions of level 0. */
  ghost predicate Occurs(leaves: seq<nat>, n: nat, x: nat) {
    exists k: nat :: k < n && HoldsAt(leaves, k, x)
  }

  /** x is at one of the 2^depth positions below the root. */
  ghost predicate AtLevelZero(leaves: seq<nat>, depth: nat, x: nat) {
    Occurs(leaves, Pow2(depth), x)
  }

  /** `path` and `sides` are a path of the tree, and one of x if x occurs at level 0. */
  ghost predicate ProvesLeaf(h: Hash2, leaves: seq<nat>, depth: nat, x: nat, path: seq<nat>, sides: seq<nat>) {
    && |path| == |sides| == depth
    && (exists t: nat :: FullTree.IsPathTo(h, LeavesOf(leaves), t, path, sides))
    && (AtLevelZero(leaves, depth, x) ==> Fold(h, x, path, sides) == FullTree.Full(h, LeavesOf(leaves), depth, 0))
  }

  ghost predicate IsBuiltFor(h: Hash2, leaves: seq<nat>, depth: nat, v: nat, w: NonMembershipProof) {
    && IsLowerBound(leaves, v, w.lowerLeaf) && IsUpperBound(leaves, v, w.upperLeaf)
    && ProvesLeaf(h, leaves, depth, w.lowerLeaf, w.lowerPath, w.lowerIdx)
    && ProvesLeaf(h, leaves, depth, w.upperLeaf, w.upperPath, w.upperIdx)
  }

  /** The first position of x, or -1. */
  method IndexOf(s: seq<nat>, x: nat) returns (i: int)
    ensures x in s ==> 0 <= i < |s| && s[i] == x && x !in s[..i]
    ensures x !in s ==> i == -1
  {
    for k := 0 to |s|
      invariant x !in s[..k]
    {
      if s[k] == x {
        return k;
      }
    }
    i := -1;
  }

  ghost predicate SameMembers(s: seq<nat>, t: seq<nat>) {
    forall l :: l in s <==> l in t
  }

  ghost predicate Ascending(s: seq<nat>) {
    forall i, j :: 0 <= i < j < |s| ==> s[i] <= s[j]
  }

  method SortAscending(leaves: seq<nat>) returns (s: seq<nat>)
    ensures Ascending(s) && SameMembers(leaves, s)
  {
    var key := (l: nat) => l;
    s := SortByKey(leaves, key);
    SortCorrect(leaves, key);
    forall i, j | 0 <= i < j < |s|
      ensures s[i] <= s[j]
    {
      assert key(s[i]) <= key(s[j]);
    }
    forall l
      ensures l in leaves <==> l in s
    {
      assert l in leaves <==> l in multiset(leaves);
    }
  }

  /** In a sorted list the bounds are the two neighbours of the point where the leaves exceed the value. */
  lemma NeighboursAreBounds(leaves: seq<nat>, s: seq<nat>, v: nat, i: nat)
    requires Ascending(s) && SameMembers(leaves, s) && i <= |s|
    requires forall j :: 0 <= j < i ==> s[j] <= v
    requires i < |s| ==> s[i] > v
    ensures IsLowerBound(leaves, v, if i == 0 then 0 else s[i - 1])
    ensures IsUpperBound(leaves, v, if i == |s| then 0 else s[i])
  {
    forall l | l in leaves
      ensures i > 0 && l <= v ==> l <= s[i - 1]
      ensures l <= v ==> i > 0
      ensures l > v ==> i < |s| && s[i] <= l
    {
      var j :| 0 <= j < |s| && s[j] == l;
    }
    if i > 0 {
      assert s[i - 1] in s;
    }
    if i < |s| {
      assert s[i] in s;
    }
  }

  /** The bounds the loop over the sorted leaves ends with. */
  method Bounds(leaves: seq<nat>, value: nat) returns (lowerLeaf: nat, upperLeaf: nat)
    ensures IsLowerBound(leaves, value, lowerLeaf) && IsUpperBound(leaves, value, upperLeaf)
  {
    var sortedLeaves := SortAscending(leaves);
    lowerLeaf, upperLeaf := 0, 0;
    var i := 0;
    while i < |sortedLeaves|
      invariant 0 <= i <= |sortedLeaves|
      invariant forall j :: 0 <= j < i ==> sortedLeaves[j] <= value
      invariant lowerLeaf == if i == 0 then 0 else sortedLeaves[i - 1]
      invariant upperLeaf == 0
    {
      if sortedLeaves[i] > value {
        upperLeaf := sortedLeaves[i];
        NeighboursAreBounds(leaves, sortedLeaves, value, i);
        return;
      }
      lowerLeaf := sortedLeaves[i];
      i := i + 1;
    }
    NeighboursAreBounds(leaves, sortedLeaves, value, i);
  }

  /** Level 0 of a built tree lists its leaves, padded with 0. */
  lemma LevelZero(tree: MerkleTree, x: nat)
    requires tree.Valid()
    ensures 0 < |tree.tree[0]| == Width(|tree.leaves|, tree.depth)
    ensures forall k: nat :: k < |tree.tree[0]| ==> tree.tree[0][k] == Or0(Get(LeavesOf(tree.leaves), k))
    ensures x in tree.tree[0] <==> Occurs(tree.leaves, |tree.tree[0]|, x)
  {
    tree.Widths();
    var level0 := tree.tree[0];
    assert LevelOf(tree.h, tree.leaves, tree.depth, 0, level0);
    assert forall k: nat :: k < |level0| ==> level0[k] == FullTree.Full(tree.h, LeavesOf(tree.leaves), 0, k);
    if Occurs(tree.leaves, |level0|, x) {
      var k: nat :| k < |level0| && HoldsAt(tree.leaves, k, x);
      assert level0[k] == x;
    } else {
      assert forall k: nat :: k < |level0| && level0[k] == x ==> HoldsAt(tree.leaves, k, x);
    }
  }

  /** A value below the root has its first position there. */
  lemma FirstPosition(tree: MerkleTree, x: nat, idx: nat)
    requires tree.Valid() && idx < |tree.tree[0]| && tree.tree[0][idx] == x && x !in tree.tree[0][..idx]
    ensures AtLevelZero(tree.leaves, tree.depth, x) ==> idx < Pow2(tree.depth)
  {
    LevelZero(tree, x);
    assert forall k: nat :: k < idx ==> tree.tree[0][..idx][k] == tree.tree[0][k];
  }

  /** A path for x taken at the first position of x, or at position 0 when x does not occur. */
  method ProofFor(tree: MerkleTree, x: nat) returns (path: seq<nat>, sides: seq<nat>)
    requires tree.Valid()
    ensures ProvesLeaf(tree.h, tree.leaves, tree.depth, x, path, sides)
  {
    LevelZero(tree, x);
    var idx := IndexOf(tree.tree[0], x);
    var at := if idx == -1 then 0 else idx;
    path, sides := tree.GetProof(at);
    tree.RootIsFull();
    if idx != -1 {
      FirstPosition(tree, x, idx);
    }
  }

  method BuildNonMembershipProof(tree: MerkleTree, value: nat) returns (w: NonMembershipProof)
    requires tree.Valid()
    ensures IsBuiltFor(tree.h, tree.leaves, tree.depth, value, w)
  {
    var lowerLeaf, upperLeaf := Bounds(tree.leaves, value);
    var lowerPath, lowerIdx := ProofFor(tree, lowerLeaf);
    var upperPath, upperIdx := ProofFor(tree, upperLeaf);
    w := NonMembershipProof(lowerLeaf, upperLeaf, lowerPath, lowerIdx, upperPath, upperIdx);
  }

  // ---- acceptance ------------------------------------------------------------------

  ghost predicate AllFit(leaves: seq<nat>) {
    forall l :: l in leaves ==> l < TWO_256
  }

  lemma {:induction false} NodesFit(h: Hash2, leaves: seq<nat>, d: nat, i: nat)
    requires OutputsFit(h) && AllFit(leaves)
    ensures FullTree.Full(h, LeavesOf(leaves), d, i) < TWO_256
  {
    if d > 0 {
      assert FullTree.Full(h, LeavesOf(leaves), d, i)
          == h(FullTree.Full(h, LeavesOf(leaves), d - 1, 2 * i), FullTree.Full(h, LeavesOf(leaves), d - 1, 2 * i + 1));
    } else if i < |leaves| {
      assert leaves[i] in leaves;
    }
  }

  /** The provider folds a client path to the encoding of what the client folds it to. */
  lemma EncodedPath(h: Hash2, leaves: seq<nat>, depth: nat, x: nat, path: seq<nat>, sides: seq<nat>)
    requires OutputsFit(h) && AllFit(leaves) && x < TWO_256
    requires ProvesLeaf(h, leaves, depth, x, path, sides)
    ensures MerkleRoot(h, Word32(x), Encode(path), sides) == Ok(Word32(Fold(h, x, path, sides)))
  {
    var t: nat :| FullTree.IsPathTo(h, LeavesOf(leaves), t, path, sides);
    forall k | 0 <= k < |path|
      ensures path[k] < TWO_256
    {
      NodesFit(h, leaves, k, Sibling(Anc(t, k)));
    }
    ByteFoldIsFold(h, x, path, sides);
  }

  lemma LessOnWords(x: nat, y: nat)
    requires x < TWO_256 && y < TWO_256
    ensures Less(Word32(x), Word32(y)) <==> x < y
  {
    LessIsNumeric(Word32(x), Word32(y));
    Word32Value(x);
    Word32Value(y);
  }

  function VerifyBuilt(h: Hash2, root: nat, v: nat, w: NonMembershipProof): Result<(), AspError> {
    VerifyNonMembership(h, Word32(v), Word32(w.lowerLeaf), Word32(w.upperLeaf), Encode(w.lowerPath), w.lowerIdx,
                        Encode(w.upperPath), w.upperIdx, Word32(root))
  }

  /** Both bounds that the value has among the leaves, and the padding 0 below, are below the root. */
  ghost predicate BoundsOccur(leaves: seq<nat>, depth: nat, v: nat, w: NonMembershipProof) {
    AtLevelZero(leaves, depth, w.lowerLeaf) && (w.upperLeaf > v ==> AtLevelZero(leaves, depth, w.upperLeaf))
  }

  /** The value lies strictly between blocked leaves, 0 counting as one. */
  ghost predicate InGap(leaves: seq<nat>, v: nat) {
    v > 0 && v !in leaves && exists l :: l in leaves && l > v
  }

  lemma LeafOccurs(leaves: seq<nat>, depth: nat, x: nat)
    requires |leaves| <= Pow2(depth) && (x in leaves || (x == 0 && |leaves| < Pow2(depth)))
    ensures AtLevelZero(leaves, depth, x)
  {
    if x in leaves {
      var k: nat :| k < |leaves| && leaves[k] == x;
      assert HoldsAt(leaves, k, x);
    } else {
      assert HoldsAt(leaves, |leaves|, x);
    }
  }

  /** They do in a tree that holds its leaves, with a leaf below the value or room for the padding 0. */
  lemma BoundsOccurWhen(h: Hash2, leaves: seq<nat>, depth: nat, v: nat, w: NonMembershipProof)
    requires IsBuiltFor(h, leaves, depth, v, w) && |leaves| <= Pow2(depth)
    requires |leaves| < Pow2(depth) || exists l :: l in leaves && l <= v
    ensures BoundsOccur(leaves, depth, v, w)
  {
    LeafOccurs(leaves, depth, w.lowerLeaf);
    if w.upperLeaf > v {
      LeafOccurs(leaves, depth, w.upperLeaf);
    }
  }

  lemma BoundsMeanGap(leaves: seq<nat>, v: nat, lower: nat, upper: nat)
    requires IsLowerBound(leaves, v, lower) && IsUpperBound(leaves, v, upper)
    ensures lower < v < upper <==> InGap(leaves, v)
  {}

  /**
   * A built witness is accepted only for a value in a gap between blocked leaves, so never for a blocked one; and when
   * its bounds are below the root it is accepted for every such value.
   */
  lemma BuiltWitnessAcceptedIff(h: Hash2, leaves: seq<nat>, depth: nat, v: nat, w: NonMembershipProof)
    requires OutputsFit(h) && AllFit(leaves) && v < TWO_256
    requires IsBuiltFor(h, leaves, depth, v, w)
    ensures VerifyBuilt(h, FullTree.Full(h, LeavesOf(leaves), depth, 0), v, w).Ok? ==> InGap(leaves, v)
    ensures BoundsOccur(leaves, depth, v, w) ==>
              (VerifyBuilt(h, FullTree.Full(h, LeavesOf(leaves), depth, 0), v, w).Ok? <==> InGap(leaves, v))
  {
    VerifyBuiltMeans(h, leaves, depth, FullTree.Full(h, LeavesOf(leaves), depth, 0), v, w);
    BoundsMeanGap(leaves, v, w.lowerLeaf, w.upperLeaf);
  }

  lemma BoundsFit(leaves: seq<nat>, v: nat, lower: nat, upper: nat)
    requires AllFit(leaves) && IsLowerBound(leaves, v, lower) && IsUpperBound(leaves, v, upper)
    ensures lower < TWO_256 && upper < TWO_256
  {}

  /** Verification compares the bounds with the value and the two folded paths with the root. */
  lemma VerifyBuiltMeans(h: Hash2, leaves: seq<nat>, depth: nat, root: nat, v: nat, w: NonMembershipProof)
    requires OutputsFit(h) && AllFit(leaves) && v < TWO_256 && IsBuiltFor(h, leaves, depth, v, w)
    ensures VerifyBuilt(h, root, v, w).Ok?
            <==> && w.lowerLeaf < v < w.upperLeaf
                 && Word32(Fold(h, w.lowerLeaf, w.lowerPath, w.lowerIdx)) == Word32(root)
                 && Word32(Fold(h, w.upperLeaf, w.upperPath, w.upperIdx)) == Word32(root)
  {
    BoundsFit(leaves, v, w.lowerLeaf, w.upperLeaf);
    LessOnWords(w.lowerLeaf, v);
    LessOnWords(v, w.upperLeaf);
    EncodedPath(h, leaves, depth, w.lowerLeaf, w.lowerPath, w.lowerIdx);
    EncodedPath(h, leaves, depth, w.upperLeaf, w.upperPath, w.upperIdx);
  }

  /**
   * With blocked leaves strictly on both sides, the witness is accepted only when the value is not blocked, and in a
   * tree that holds its leaves exactly then.
   */
  lemma BetweenBlockedLeaves(h: Hash2, leaves: seq<nat>, depth: nat, v: nat, w: NonMembershipProof, below: nat,
                             above: nat)
    requires OutputsFit(h) && AllFit(leaves) && v < TWO_256
    requires IsBuiltFor(h, leaves, depth, v, w)
    requires below in leaves && above in leaves && below < v < above
    ensures VerifyBuilt(h, FullTree.Full(h, LeavesOf(leaves), depth, 0), v, w).Ok? ==> v !in leaves
    ensures |leaves| <= Pow2(depth) ==>
              (VerifyBuilt(h, FullTree.Full(h, LeavesOf(leaves), depth, 0), v, w).Ok? <==> v !in leaves)
    ensures v !in leaves ==> w.lowerLeaf in leaves && w.upperLeaf in leaves && w.lowerLeaf < v < w.upperLeaf
                             && forall l :: l in leaves ==> l <= w.lowerLeaf || w.upperLeaf <= l
  {
    if |leaves| <= Pow2(depth) {
      BoundsOccurWhen(h, leaves, depth, v, w);
    }
    BuiltWitnessAcceptedIff(h, leaves, depth, v, w);
    assert above in leaves && above > v;
  }

  /** With 5 the only blocked leaf, 7 is not blocked, and no witness built for it is accepted. */
  lemma ValueAboveAllIsRefused(h: Hash2, w: NonMembershipProof)
    requires OutputsFit(h) && IsBuiltFor(h, [5], 1, 7, w)
    ensures 7 !in [5 as nat] && VerifyBuilt(h, FullTree.Full(h, LeavesOf([5]), 1, 0), 7, w).Err?
  {
    BuiltWitnessAcceptedIff(h, [5], 1, 7, w);
  }

  // ---- a whole entry witness ---------------------------------------------------------

  /** The blocked tree holds its leaves, and a leaf not above the value or room for the padding 0. */
  ghost predicate BoundsReach(leaves: seq<nat>, depth: nat, v: nat) {
    |leaves| <= Pow2(depth) && (|leaves| < Pow2(depth) || exists l :: l in leaves && l <= v)
  }

  /** The path of the credential's first position in the tree, if it has one. */
  method CredentialPath(tree: MerkleTree, credential: nat) returns (r: Option<(seq<nat>, seq<nat>)>)
    requires tree.Valid()
    ensures r.Some? <==> Occurs(tree.leaves, Width(|tree.leaves|, tree.depth), credential)
    ensures r.Some? ==> ProvesLeaf(tree.h, tree.leaves, tree.depth, credential, r.value.0, r.value.1)
  {
    LevelZero(tree, credential);
    var idx := IndexOf(tree.tree[0], credential);
    if idx == -1 {
      return None;
    }
    var path, sides := tree.GetProof(idx);
    FirstPosition(tree, credential, idx);
    tree.RootIsFull();
    r := Some((path, sides));
  }

  /**
   * The deposit form's witness: the credential's path in the approved tree and its gap in the blocked tree. It passes
   * the provider's checks only if the credential is in such a gap, and always if it is also below the approved root.
   */
  method BuildEntryWitness(approved: MerkleTree, blocked: MerkleTree, credential: nat)
    returns (r: Result<MembershipProof, string>)
    requires approved.Valid() && blocked.Valid() && approved.h == blocked.h
    requires OutputsFit(approved.h) && AllFit(approved.leaves) && AllFit(blocked.leaves) && credential < TWO_256
    ensures r.Ok? <==> Occurs(approved.leaves, Width(|approved.leaves|, approved.depth), credential)
    ensures r.Ok? ==> r.value.approvedRoot == Word32(approved.Root()) && r.value.blockedRoot == Word32(blocked.Root())
    ensures r.Ok? && CheckWitness(approved.h, r.value).Ok? ==> InGap(blocked.leaves, credential)
    ensures AtLevelZero(approved.leaves, approved.depth, credential)
            && BoundsReach(blocked.leaves, blocked.depth, credential) ==>
              r.Ok? && (CheckWitness(approved.h, r.value).Ok? <==> InGap(blocked.leaves, credential))
  {
    var proof := CredentialPath(approved, credential);
    if proof.None? {
      return Err("Credential not found in approved tree");
    }
    var (path, sides) := proof.value;
    EncodedPath(approved.h, approved.leaves, approved.depth, credential, path, sides);
    approved.RootIsFull();
    var w := BuildNonMembershipProof(blocked, credential);
    blocked.RootIsFull();
    BuiltWitnessAcceptedIff(blocked.h, blocked.leaves, blocked.depth, credential, w);
    if BoundsReach(blocked.leaves, blocked.depth, credential) {
      BoundsOccurWhen(blocked.h, blocked.leaves, blocked.depth, credential, w);
    }
    r := Ok(MembershipProof(
      Word32(credential), Encode(path), sides,
      Word32(w.lowerLeaf), Word32(w.upperLeaf), Encode(w.lowerPath), w.lowerIdx, Encode(w.upperPath), w.upperIdx,
      Word32(approved.Root()), Word32(blocked.Root())));
  }
}
