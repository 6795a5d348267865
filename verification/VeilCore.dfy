/** The core contract over its storage: the incremental tree, the root window and the keyed sets. */
module VeilCore {
  import opened Words
  import opened SparseTree
  import opened CoreState
  import opened AspGate
  import opened BigEndian

  /** A copy of the storage, taken by the host when a call starts. */
  datatype Storage = Storage(nodes: map<nat, nat>, nextIndex: nat, roots: seq<nat>, auditCt: map<nat, Bytes>,
                             spent: set<nat>, locked: set<nat>, modules: map<Address, bv32>)

  class VeilCore {
    const cfg: Config
    var nodes: map<nat, nat>
    var nextIndex: nat
    var roots: seq<nat>
    var auditCt: map<nat, Bytes>
    var spent: set<nat>
    var locked: set<nat>
    var modules: map<Address, bv32>
    ghost var leaves: seq<Leaf>

    /**
     * The stored nodes are the sparse tree over the leaves; the root window is the last min(n + 1, 50) entries of
     * the root history; exactly indices 0..n-1 hold a ciphertext, and none is empty.
     */
    ghost predicate Valid()
      reads this
    {
      && nextIndex == |leaves| <= Pow2(cfg.depth)
      && Represents(cfg.h, cfg.depth, nodes, LeavesOf(Cms(leaves)))
      && roots == LastN(RootHistory(cfg, leaves), ROOT_WINDOW)
      && auditCt == Cts(leaves)
      && (forall i :: 0 <= i < |leaves| ==> leaves[i].ct != [])
    }

    ghost function State(): Core
      reads this
    {
      Core(leaves, spent, locked, modules)
    }

    constructor (cfg: Config)
      ensures Valid() && this.cfg == cfg && State() == Core([], {}, {}, map[])
    {
      this.cfg := cfg;
      this.nodes := map[];
      this.nextIndex := 0;
      this.roots := [cfg.emptyRoot];
      this.auditCt := map[];
      this.spent := {};
      this.locked := {};
      this.modules := map[];
      this.leaves := [];
      new;
      EmptyRepresents(cfg.h, cfg.depth);
      assert LeavesOf(Cms([])) == map[];
      assert RootHistory(cfg, []) == [cfg.emptyRoot];
    }

    function Save(): Storage
      reads this
    {
      Storage(nodes, nextIndex, roots, auditCt, spent, locked, modules)
    }

    /** The host's rollback. */
    method Restore(saved: Storage, ghost savedLeaves: seq<Leaf>)
      modifies this
      ensures Save() == saved && leaves == savedLeaves
    {
      nodes, nextIndex, roots, auditCt := saved.nodes, saved.nextIndex, saved.roots, saved.auditCt;
      spent, locked, modules := saved.spent, saved.locked, saved.modules;
      leaves := savedLeaves;
    }

    method RootIsKnown(root: nat) returns (known: bool)
      requires Valid()
      ensures known == CoreState.RootIsKnown(cfg, State(), root)
      ensures known <==> exists k: nat :: k <= |leaves| < k + 50 && root == RootAfter(cfg, leaves[..k])
    {
      assert CoreState.RootIsKnown(cfg, State(), root) == (root in roots);
      RootIsKnownIff(cfg, State(), root);
      for i := 0 to |roots|
        invariant forall j :: 0 <= j < i ==> roots[j] != root
      {
        if roots[i] == root {
          return true;
        }
      }
      known := false;
    }

    /**
     * Rewrites the one path above the leaf; afterwards storage is the sparse tree with the leaf set, and the result
     * its root.
     */
    method InsertLeaf(idx: nat, leaf: nat, ghost before: LeafMap) returns (root: nat)
      requires idx < Pow2(cfg.depth)
      requires Represents(cfg.h, cfg.depth, nodes, before)
      modifies this`nodes
      ensures Represents(cfg.h, cfg.depth, nodes, before[idx := leaf])
      ensures root == Root(cfg.h, cfg.depth, before[idx := leaf])
      ensures SameOffPath(cfg.depth, old(nodes), nodes, idx)
    {
      var node: nat := Pow2(cfg.depth) + idx;
      RewriteStarts(cfg.h, cfg.depth, nodes, before, idx, leaf);
      nodes := nodes[node := leaf];
      ghost var d: nat := 0;
      while node > 1
        invariant Rewriting(cfg.h, cfg.depth, nodes, before, idx, leaf, d, node)
        decreases node
      {
        RewriteStep(cfg.h, cfg.depth, nodes, before, idx, leaf, d, node);
        var parent := node / 2;
        var sibling := if node % 2 == 0 then node + 1 else node - 1;
        var isLeft := node % 2 == 0;
        var current := if node in nodes then nodes[node] else 0;
        var siblingVal := if sibling in nodes then nodes[sibling] else 0;
        var parentVal := if isLeft then cfg.h(current, siblingVal) else cfg.h(siblingVal, current);
        assert parentVal == ParentValue(cfg.h, nodes, node);
        nodes := nodes[parent := parentVal];
        node := parent;
        d := d + 1;
      }
      PathRewritten(d, node, idx, leaf, before, old(nodes));
      root := if 1 in nodes then nodes[1] else 0;
    }

    /** What the loop leaves when it reaches the root. */
    lemma PathRewritten(d: nat, node: nat, idx: nat, leaf: nat, before: LeafMap, oldNodes: map<nat, nat>)
      requires idx < Pow2(cfg.depth) && Represents(cfg.h, cfg.depth, oldNodes, before)
      requires node <= 1 && Rewriting(cfg.h, cfg.depth, nodes, before, idx, leaf, d, node)
      ensures Represents(cfg.h, cfg.depth, nodes, before[idx := leaf])
      ensures Or0(Get(nodes, 1)) == Root(cfg.h, cfg.depth, before[idx := leaf])
      ensures SameOffPath(cfg.depth, oldNodes, nodes, idx)
    {
      AtTop(d, idx);
      RepresentsAfter(nodes, before[idx := leaf], before);
      OffPathKept(idx, leaf, before, oldNodes);
    }

    lemma AtTop(d: nat, idx: nat)
      requires d <= cfg.depth && Key(cfg.depth, d, Anc(idx, d)) <= 1
      ensures d == cfg.depth
    {}

    lemma RepresentsAfter(nodes: map<nat, nat>, after: LeafMap, before: LeafMap)
      requires Mixed(cfg.h, cfg.depth, nodes, after, before, cfg.depth)
      requires KeysInRange(cfg.depth, nodes)
      ensures Represents(cfg.h, cfg.depth, nodes, after)
      ensures Or0(Get(nodes, 1)) == Root(cfg.h, cfg.depth, after)
    {
      assert Get(nodes, Key(cfg.depth, cfg.depth, 0)) == Node(cfg.h, after, cfg.depth, 0);
    }

    lemma OffPathKept(idx: nat, leaf: nat, before: LeafMap, oldNodes: map<nat, nat>)
      requires Represents(cfg.h, cfg.depth, oldNodes, before)
      requires Represents(cfg.h, cfg.depth, nodes, before[idx := leaf])
      ensures SameOffPath(cfg.depth, oldNodes, nodes, idx)
    {
      forall d: nat, i: nat | d <= cfg.depth && i < Pow2(cfg.depth - d) && i != Anc(idx, d)
        ensures Get(nodes, Key(cfg.depth, d, i)) == Get(oldNodes, Key(cfg.depth, d, i))
      {
        StoredNode(cfg.h, cfg.depth, oldNodes, before, d, i);
        StoredNode(cfg.h, cfg.depth, nodes, before[idx := leaf], d, i);
        OffPathUnchanged(cfg.h, before, idx, leaf, d, i);
      }
    }

    method InsertCommitmentInternal(cm: nat, ct: Bytes) returns (r: Result<nat, VeilError>)
      requires Valid()
      modifies this
      ensures Valid() && Outcome(InsertInternal(cfg, old(State()), cm, ct), old(State()), r, State())
    {
      if |ct| == 0 {
        return Err(MissingAuditorCt);
      }
      var idx := nextIndex;
      if idx >= Pow2(cfg.depth) {
        return Err(TreeFull);
      }
      var newRoot := InsertLeaf(idx, cm, LeavesOf(Cms(leaves)));
      LeavesPush(leaves, Leaf(cm, ct));
      RootWindowPush(cfg, leaves, Leaf(cm, ct));
      nextIndex := idx + 1;
      roots := roots + [newRoot];
      if |roots| > ROOT_WINDOW {
        roots := roots[1..];
      }
      auditCt := auditCt[idx := ct];
      leaves := leaves + [Leaf(cm, ct)];
      r := Ok(idx);
    }

    method InsertCommitment(caller: Address, cm: nat, ct: Bytes) returns (r: Result<nat, VeilError>)
      requires Valid()
      modifies this
      ensures Valid()
              && Outcome(CoreState.InsertCommitment(cfg, old(State()), caller, cm, ct), old(State()), r, State())
    {
      var _ :- RequirePerm(caller, PERM_INSERT);
      r := InsertCommitmentInternal(cm, ct);
    }

    method RequirePerm(caller: Address, perm: bv32) returns (r: Result<(), VeilError>)
      ensures r == CoreState.RequirePerm(State(), caller, perm)
    {
      var callerPerms := PermsOf(modules, caller);
      r := if callerPerms & perm == 0 then Err(VeilError.Unauthorized) else Ok(());
    }

    method SpendInternal(nf: nat) returns (r: Result<(), VeilError>)
      requires Valid()
      modifies this`spent
      ensures Valid() && Outcome(CoreState.SpendInternal(old(State()), nf), old(State()), r, State())
    {
      if nf in spent {
        return Err(AlreadySpent);
      }
      if nf in locked {
        return Err(IsLocked);
      }
      spent := spent + {nf};
      r := Ok(());
    }

    method Spend(caller: Address, nf: nat) returns (r: Result<(), VeilError>)
      requires Valid()
      modifies this`spent
      ensures Valid() && Outcome(CoreState.Spend(old(State()), caller, nf), old(State()), r, State())
    {
      var _ :- RequirePerm(caller, PERM_SPEND);
      r := SpendInternal(nf);
    }

    method Lock(caller: Address, nf: nat) returns (r: Result<(), VeilError>)
      requires Valid()
      modifies this`locked
      ensures Valid() && Outcome(CoreState.Lock(old(State()), caller, nf), old(State()), r, State())
    {
      var _ :- RequirePerm(caller, PERM_LOCK);
      if nf in spent {
        return Err(AlreadySpent);
      }
      if nf in locked {
        return Err(AlreadyLocked);
      }
      locked := locked + {nf};
      r := Ok(());
    }

    method Unlock(caller: Address, nf: nat) returns (r: Result<(), VeilError>)
      requires Valid()
      modifies this`locked
      ensures Valid() && Outcome(CoreState.Unlock(old(State()), caller, nf), old(State()), r, State())
    {
      var _ :- RequirePerm(caller, PERM_LOCK);
      if nf !in locked {
        return Err(NotLocked);
      }
      locked := locked - {nf};
      r := Ok(());
    }

    method InsertIfSet(cm: nat, ct: Bytes) returns (r: Result<seq<nat>, VeilError>)
      requires Valid()
      modifies this
      ensures Valid() && Outcome(CoreState.InsertIfSet(cfg, old(State()), cm, ct), old(State()), r, State())
    {
      if cm == 0 {
        return Ok([]);
      }
      var idx :- InsertCommitmentInternal(cm, ct);
      r := Ok([idx]);
    }

    method SpendIfSet(nf: nat) returns (r: Result<(), VeilError>)
      requires Valid()
      modifies this
      ensures Valid() && Outcome(CoreState.SpendIfSet(old(State()), nf), old(State()), r, State())
    {
      if nf == 0 {
        return Ok(());
      }
      r := SpendInternal(nf);
    }

    /** `aspAccepts` is the answer of the contract that the depositor names as the provider. */
    method Deposit(aspAccepts: bool, proof: Proof, pub: DepositPublic, ct: Bytes) returns (r: Result<nat, VeilError>)
      requires Valid()
      modifies this
      ensures Valid() && Outcome(DepositNote(cfg, old(State()), aspAccepts, proof, pub, ct), old(State()), r, State())
    {
      if !aspAccepts {
        return Err(AspRejected);
      }
      var ok :- cfg.verify(VkId.Deposit, proof, [pub.cm, pub.publicAmount, pub.aspApprovedRoot, pub.aspBlockedRoot]);
      if !ok {
        return Err(VeilError.BadProof);
      }
      r := InsertCommitmentInternal(pub.cm, ct);
    }

    /** A deposit that names an association-set provider: it enters exactly past that provider's own checks. */
    method DepositThrough(asp: Asp, aspProof: MembershipProof, proof: Proof, pub: DepositPublic, ct: Bytes)
      returns (r: Result<nat, VeilError>)
      requires Valid() && asp.Valid()
      modifies this
      ensures Valid() && asp.Valid()
      ensures Outcome(DepositNote(cfg, old(State()), EntryResult(asp.h, asp.history, aspProof).Ok?, proof, pub, ct),
                      old(State()), r, State())
      ensures r.Ok? ==> && CheckWitness(asp.h, aspProof).Ok?
                        && (aspProof.approvedRoot, aspProof.blockedRoot)
                           in LastN(PairLog(asp.a0, asp.b0, asp.updates), 50)
    {
      var entry := asp.CheckEntry(aspProof);
      r := Deposit(entry.Ok?, proof, pub, ct);
    }

    /** The tokens moved for a public amount: its last eight bytes, shifted in one by one. */
    static method BytesToAmount(b: Bytes32) returns (amount: nat)
      ensures amount == FromBe(b) % TWO_64
    {
      amount := 0;
      for i := 24 to 32
        invariant amount == FromBe(b[24..i])
      {
        amount := amount * 256 % TWO_64 + b[i] as nat;
        FromBeBound(b[24..i]);
        assert Pow256(7) * 256 == TWO_64 && Pow256(i - 24) <= Pow256(7);
        assert b[24..i + 1][..i - 24] == b[24..i];
      }
      assert b[24..32] == b[24..];
      LowBytes(b);
    }

    method TransferBody(proof: Proof, pub: TransferPublic, cts: seq<Bytes>) returns (r: Result<seq<nat>, VeilError>)
      requires Valid()
      modifies this
      ensures Valid() && Partial(TransferNotes(cfg, old(State()), proof, pub, cts), r, State())
    {
      if pub.publicAmount != 0 {
        return Err(InvalidPublicAmount);
      }
      var known := RootIsKnown(pub.root);
      if !known {
        return Err(VeilError.UnknownRoot);
      }
      var ok :- cfg.verify(VkId.Transfer, proof,
                           [pub.root, pub.nfIn0, pub.nfIn1, pub.cmOut0, pub.cmOut1, pub.publicAmount]);
      if !ok {
        return Err(VeilError.BadProof);
      }
      var _ :- SpendIfSet(pub.nfIn0);
      var _ :- SpendIfSet(pub.nfIn1);
      var i0 :- InsertIfSet(pub.cmOut0, CtAt(cts, 0));
      var i1 :- InsertIfSet(pub.cmOut1, CtAt(cts, 1));
      r := Ok(i0 + i1);
    }

    method Transfer(proof: Proof, pub: TransferPublic, cts: seq<Bytes>) returns (r: Result<seq<nat>, VeilError>)
      requires Valid()
      modifies this
      ensures Valid() && Outcome(TransferNotes(cfg, old(State()), proof, pub, cts), old(State()), r, State())
    {
      var saved := Save();
      ghost var savedLeaves := leaves;
      r := TransferBody(proof, pub, cts);
      if r.Err? {
        Restore(saved, savedLeaves);
      }
    }

    method WithdrawBody(proof: Proof, pub: WithdrawPublic, changeCt: Bytes) returns (r: Result<seq<nat>, VeilError>)
      requires Valid()
      modifies this
      ensures Valid() && Partial(WithdrawNotes(cfg, old(State()), proof, pub, changeCt), r, State())
    {
      if pub.publicAmount == 0 {
        return Err(InvalidPublicAmount);
      }
      var known := RootIsKnown(pub.root);
      if !known {
        return Err(VeilError.UnknownRoot);
      }
      var ok :- cfg.verify(VkId.Withdraw, proof,
        [pub.root, pub.nfIn0, pub.nfIn1, pub.cmChange, pub.publicAmount, pub.assetId, pub.recipientHash]);
      if !ok {
        return Err(VeilError.BadProof);
      }
      var _ :- SpendIfSet(pub.nfIn0);
      var _ :- SpendIfSet(pub.nfIn1);
      r := InsertIfSet(pub.cmChange, changeCt);
    }

    method Withdraw(proof: Proof, pub: WithdrawPublic, changeCt: Bytes) returns (r: Result<seq<nat>, VeilError>)
      requires Valid()
      modifies this
      ensures Valid() && Outcome(WithdrawNotes(cfg, old(State()), proof, pub, changeCt), old(State()), r, State())
    {
      var saved := Save();
      ghost var savedLeaves := leaves;
      r := WithdrawBody(proof, pub, changeCt);
      if r.Err? {
        Restore(saved, savedLeaves);
      }
    }
  }
}
