/** The association-set provider: root history and entry checks on 32-byte values. */
module AspGate {
  import opened Words
  import opened BigEndian
  import opened SparseTree

  const HISTORY_LEN: nat := 50

  datatype AspError = Unauthorized | NotApproved | IsBlocked | UnknownRoot | BadProof

  type Pair = (Bytes32, Bytes32)

  datatype MembershipProof = MembershipProof(
    credentialLeaf: Bytes32,
    approvedPath: seq<Bytes32>,
    approvedIdx: seq<nat>,
    blockedLowerLeaf: Bytes32,
    blockedUpperLeaf: Bytes32,
    blockedLowerPath: seq<Bytes32>,
    blockedLowerIdx: seq<nat>,
    blockedUpperPath: seq<Bytes32>,
    blockedUpperIdx: seq<nat>,
    approvedRoot: Bytes32,
    blockedRoot: Bytes32
  )

  // ---- Merkle paths over bytes -------------------------------------------------

  /** The tree hash over byte arrays: both operands are read as numbers and the result is written back. */
  function Poseidon2(h: Hash2, left: Bytes32, right: Bytes32): Bytes32 {
    Word32(h(FromBe(left), FromBe(right)))
  }

  function ByteFold(h: Hash2, leaf: Bytes32, path: seq<Bytes32>, indices: seq<nat>): Bytes32
    requires |path| == |indices|
    decreases |path|
  {
    if |path| == 0 then leaf
    else
      var n := |path| - 1;
      var current := ByteFold(h, leaf, path[..n], indices[..n]);
      if indices[n] == 0 then Poseidon2(h, current, path[n]) else Poseidon2(h, path[n], current)
  }

  function MerkleRoot(h: Hash2, leaf: Bytes32, path: seq<Bytes32>, indices: seq<nat>): Result<Bytes32, AspError> {
    if |path| != |indices| then Err(BadProof) else Ok(ByteFold(h, leaf, path, indices))
  }

  method ComputeMerkleRoot(h: Hash2, leaf: Bytes32, path: seq<Bytes32>, indices: seq<nat>)
    returns (r: Result<Bytes32, AspError>)
    ensures r == MerkleRoot(h, leaf, path, indices)
  {
    if |path| != |indices| {
      return Err(BadProof);
    }
    var current: Bytes32 := leaf;
    for i := 0 to |path|
      invariant current == ByteFold(h, leaf, path[..i], indices[..i])
    {
      assert path[..i + 1][..i] == path[..i] && indices[..i + 1][..i] == indices[..i];
      var sibling := path[i];
      current := if indices[i] == 0 then Poseidon2(h, current, sibling) else Poseidon2(h, sibling, current);
    }
    assert path[..|path|] == path && indices[..|path|] == indices;
    r := Ok(current);
  }

  /** Hash outputs fit in 32 bytes. */
  ghost predicate OutputsFit(h: Hash2) {
    forall x, y :: h(x, y) < TWO_256
  }

  function Encode(path: seq<nat>): seq<Bytes32> {
    seq(|path|, i requires 0 <= i < |path| => Word32(path[i]))
  }

  /** The byte fold of an encoded path is the encoding of the numeric fold. */
  lemma {:induction false} ByteFoldIsFold(h: Hash2, leaf: nat, path: seq<nat>, sides: seq<nat>)
    requires OutputsFit(h) && leaf < TWO_256 && |path| == |sides|
    requires forall k :: 0 <= k < |path| ==> path[k] < TWO_256
    ensures Fold(h, leaf, path, sides) < TWO_256
    ensures ByteFold(h, Word32(leaf), Encode(path), sides) == Word32(Fold(h, leaf, path, sides))
    decreases |path|
  {
    if |path| > 0 {
      var n := |path| - 1;
      ByteFoldIsFold(h, leaf, path[..n], sides[..n]);
      assert Encode(path)[..n] == Encode(path[..n]);
      Word32Value(Fold(h, leaf, path[..n], sides[..n]));
      Word32Value(path[n]);
    }
  }

  // ---- entry checks -------------------------------------------------------------

  function VerifyNonMembership(h: Hash2, value: Bytes32, lower: Bytes32, upper: Bytes32,
                               lowerPath: seq<Bytes32>, lowerIdx: seq<nat>,
                               upperPath: seq<Bytes32>, upperIdx: seq<nat>, expectedRoot: Bytes32): Result<(), AspError>
  {
    if !Less(lower, value) || !Less(value, upper) then Err(IsBlocked)
    else
      match MerkleRoot(h, lower, lowerPath, lowerIdx)
      case Err(e) => Err(e)
      case Ok(lowerRoot) =>
        match MerkleRoot(h, upper, upperPath, upperIdx)
        case Err(e) => Err(e)
        case Ok(upperRoot) =>
          if lowerRoot != expectedRoot || upperRoot != expectedRoot then Err(IsBlocked) else Ok(())
  }

  /** What is checked about a proof once its pair of roots is known. */
  function CheckWitness(h: Hash2, p: MembershipProof): Result<(), AspError> {
    match MerkleRoot(h, p.credentialLeaf, p.approvedPath, p.approvedIdx)
    case Err(e) => Err(e)
    case Ok(computed) =>
      if computed != p.approvedRoot then Err(NotApproved)
      else
        VerifyNonMembership(h, p.credentialLeaf, p.blockedLowerLeaf, p.blockedUpperLeaf,
                            p.blockedLowerPath, p.blockedLowerIdx, p.blockedUpperPath, p.blockedUpperIdx, p.blockedRoot)
  }

  /**
   * The checks pass exactly when every path has a side for each sibling, the credential folds to the approved root,
   * both bounds fold to the blocked root, and the credential lies strictly between the bounds.
   */
  lemma CheckWitnessMeans(h: Hash2, p: MembershipProof)
    ensures CheckWitness(h, p).Ok?
            <==> && |p.approvedPath| == |p.approvedIdx|
                 && |p.blockedLowerPath| == |p.blockedLowerIdx| && |p.blockedUpperPath| == |p.blockedUpperIdx|
                 && ByteFold(h, p.credentialLeaf, p.approvedPath, p.approvedIdx) == p.approvedRoot
                 && ByteFold(h, p.blockedLowerLeaf, p.blockedLowerPath, p.blockedLowerIdx) == p.blockedRoot
                 && ByteFold(h, p.blockedUpperLeaf, p.blockedUpperPath, p.blockedUpperIdx) == p.blockedRoot
                 && FromBe(p.blockedLowerLeaf) < FromBe(p.credentialLeaf) < FromBe(p.blockedUpperLeaf)
  {
    LessIsNumeric(p.blockedLowerLeaf, p.credentialLeaf);
    LessIsNumeric(p.credentialLeaf, p.blockedUpperLeaf);
  }

  function EntryResult(h: Hash2, history: seq<Pair>, p: MembershipProof): Result<(), AspError> {
    if (p.approvedRoot, p.blockedRoot) !in history then Err(UnknownRoot) else CheckWitness(h, p)
  }

  // ---- root updates ---------------------------------------------------------------

  datatype Update = Approve(root: Bytes32) | Block(root: Bytes32)

  /** The approved root after the updates: that of the latest approval, or the initial one. */
  function CurrentApproved(initial: Bytes32, updates: seq<Update>): Bytes32 {
    if updates == [] then initial
    else
      var n := |updates| - 1;
      if updates[n].Approve? then updates[n].root else CurrentApproved(initial, updates[..n])
  }

  function CurrentBlocked(initial: Bytes32, updates: seq<Update>): Bytes32 {
    if updates == [] then initial
    else
      var n := |updates| - 1;
      if updates[n].Block? then updates[n].root else CurrentBlocked(initial, updates[..n])
  }

  /** The pairs that were current initially and after each update, oldest first. */
  function PairLog(a0: Bytes32, b0: Bytes32, updates: seq<Update>): (log: seq<Pair>)
    ensures |log| == |updates| + 1
  {
    seq(|updates| + 1,
        k requires 0 <= k <= |updates| => (CurrentApproved(a0, updates[..k]), CurrentBlocked(b0, updates[..k])))
  }

  lemma PairLogPush(a0: Bytes32, b0: Bytes32, updates: seq<Update>, u: Update)
    ensures PairLog(a0, b0, updates + [u])
            == PairLog(a0, b0, updates) + [(CurrentApproved(a0, updates + [u]), CurrentBlocked(b0, updates + [u]))]
  {
    var all := updates + [u];
    forall k | 0 <= k <= |updates|
      ensures PairLog(a0, b0, all)[k] == PairLog(a0, b0, updates)[k]
    {
      assert all[..k] == updates[..k];
    }
    assert all[..|all|] == all;
  }

  class Asp {
    const h: Hash2
    const operator: nat
    var approvedRoot: Bytes32
    var blockedRoot: Bytes32
    var history: seq<Pair>
    ghost const a0: Bytes32
    ghost const b0: Bytes32
    ghost var updates: seq<Update>

    /**
     * The roots are the current ones and the history is the last 50 recorded pairs, the newest being the current
     * roots.
     */
    ghost predicate Valid()
      reads this
    {
      && approvedRoot == CurrentApproved(a0, updates)
      && blockedRoot == CurrentBlocked(b0, updates)
      && history == LastN(PairLog(a0, b0, updates), HISTORY_LEN)
      && history != [] && history[|history| - 1] == (approvedRoot, blockedRoot)
    }

    constructor (h: Hash2, operator: nat, approvedRoot: Bytes32, blockedRoot: Bytes32)
      ensures Valid() && this.h == h && this.operator == operator
      ensures a0 == approvedRoot && b0 == blockedRoot && updates == []
    {
      this.h := h;
      this.operator := operator;
      this.approvedRoot := approvedRoot;
      this.blockedRoot := blockedRoot;
      this.history := [(approvedRoot, blockedRoot)];
      this.a0 := approvedRoot;
      this.b0 := blockedRoot;
      this.updates := [];
    }

    method PushHistory(approved: Bytes32, blocked: Bytes32)
      modifies this`history
      ensures history == var w := old(history) + [(approved, blocked)]; if |w| > HISTORY_LEN then w[1..] else w
    {
      history := history + [(approved, blocked)];
      if |history| > HISTORY_LEN {
        history := history[1..];
      }
    }

    method UpdateApproved(op: nat, newRoot: Bytes32) returns (r: Result<(), AspError>)
      requires Valid()
      modifies this
      ensures Valid()
      ensures op != operator ==> r == Err(Unauthorized) && updates == old(updates)
      ensures op == operator ==> r == Ok(()) && updates == old(updates) + [Approve(newRoot)]
    {
      if op != operator {
        return Err(Unauthorized);
      }
      LastNPush(PairLog(a0, b0, updates), (newRoot, blockedRoot), HISTORY_LEN);
      PairLogPush(a0, b0, updates, Approve(newRoot));
      approvedRoot := newRoot;
      PushHistory(newRoot, blockedRoot);
      updates := updates + [Approve(newRoot)];
      r := Ok(());
    }

    method UpdateBlocked(op: nat, newRoot: Bytes32) returns (r: Result<(), AspError>)
      requires Valid()
      modifies this
      ensures Valid()
      ensures op != operator ==> r == Err(Unauthorized) && updates == old(updates)
      ensures op == operator ==> r == Ok(()) && updates == old(updates) + [Block(newRoot)]
    {
      if op != operator {
        return Err(Unauthorized);
      }
      LastNPush(PairLog(a0, b0, updates), (approvedRoot, newRoot), HISTORY_LEN);
      PairLogPush(a0, b0, updates, Block(newRoot));
      blockedRoot := newRoot;
      PushHistory(approvedRoot, newRoot);
      updates := updates + [Block(newRoot)];
      r := Ok(());
    }

    /**
     * Accepts exactly the witnesses whose pair of roots is among the last 50 recorded, whose credential folds to the
     * approved root, and whose bounds enclose the credential and fold to the blocked root.
     */
    method CheckEntry(p: MembershipProof) returns (r: Result<(), AspError>)
      requires Valid()
      ensures r == EntryResult(h, history, p)
      ensures r.Ok?
              <==> && (p.approvedRoot, p.blockedRoot) in LastN(PairLog(a0, b0, updates), 50)
                   && |p.approvedPath| == |p.approvedIdx|
                   && |p.blockedLowerPath| == |p.blockedLowerIdx| && |p.blockedUpperPath| == |p.blockedUpperIdx|
                   && ByteFold(h, p.credentialLeaf, p.approvedPath, p.approvedIdx) == p.approvedRoot
                   && ByteFold(h, p.blockedLowerLeaf, p.blockedLowerPath, p.blockedLowerIdx) == p.blockedRoot
                   && ByteFold(h, p.blockedUpperLeaf, p.blockedUpperPath, p.blockedUpperIdx) == p.blockedRoot
                   && FromBe(p.blockedLowerLeaf) < FromBe(p.credentialLeaf) < FromBe(p.blockedUpperLeaf)
    {
      CheckWitnessMeans(h, p);
      if (p.approvedRoot, p.blockedRoot) !in history {
        return Err(UnknownRoot);
      }
      var computed := ComputeMerkleRoot(h, p.credentialLeaf, p.approvedPath, p.approvedIdx);
      if computed.Err? {
        return Err(computed.error);
      }
      if computed.value != p.approvedRoot {
        return Err(NotApproved);
      }
      r := VerifyNonMembership(h, p.credentialLeaf, p.blockedLowerLeaf, p.blockedUpperLeaf,
                               p.blockedLowerPath, p.blockedLowerIdx, p.blockedUpperPath, p.blockedUpperIdx,
                               p.blockedRoot);
    }
  }

  /**
   * A valid witness is accepted after every continuation that records fewer than 50 further pairs, however
   * interleaved.
   */
  lemma WitnessOutlivesUpdates(h: Hash2, a0: Bytes32, b0: Bytes32, before: seq<Update>, later: seq<Update>,
                               p: MembershipProof)
    requires CheckWitness(h, p).Ok?
    requires p.approvedRoot == CurrentApproved(a0, before) && p.blockedRoot == CurrentBlocked(b0, before)
    requires |later| < 50
    ensures EntryResult(h, LastN(PairLog(a0, b0, before + later), 50), p).Ok?
  {
    var log := PairLog(a0, b0, before + later);
    var k := |before|;
    assert (before + later)[..k] == before;
    assert log[k] == (p.approvedRoot, p.blockedRoot);
    var w := LastN(log, HISTORY_LEN);
    if |log| > HISTORY_LEN {
      assert w[k - (|log| - HISTORY_LEN)] == log[k];
    }
  }

  /**
   * The newest recorded pair is the pair of current roots, and a pair leaves the history only by falling behind 50
   * others.
   */
  lemma NewestPairIsCurrent(a0: Bytes32, b0: Bytes32, updates: seq<Update>)
    ensures var log := PairLog(a0, b0, updates);
            && log[|log| - 1] == (CurrentApproved(a0, updates), CurrentBlocked(b0, updates))
            && LastN(log, HISTORY_LEN)[|LastN(log, HISTORY_LEN)| - 1] == log[|log| - 1]
  {
    assert updates[..|updates|] == updates;
  }
}
