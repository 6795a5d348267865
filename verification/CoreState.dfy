/**
 * The shared core seen abstractly: the inserted leaves with their ciphertexts, the two nullifier sets and the
 * permissions.
 */
module CoreState {
  import opened Words
  import opened SparseTree

  type Address = nat

  datatype VeilError =
    Unauthorized | AspRejected | BadProof | MissingAuditorCt | AlreadySpent | IsLocked | AlreadyLocked | NotLocked
    | UnknownVk | MalformedProof | TreeFull | UnknownRoot | InvalidPublicAmount

  datatype VkId =
    Deposit | Transfer | Withdraw | Swap | BatchSettle | AddLiquidity | RemoveLiquidity | Lend | SettleOrRefund | Repay

  datatype Proof = Proof(a: Bytes, b: Bytes, c: Bytes)

  const ROOT_WINDOW: nat := 50

  const PERM_INSERT: bv32 := 1
  const PERM_SPEND: bv32 := 2
  const PERM_LOCK: bv32 := 4

  /** What is fixed for a deployment: the tree hash and depth, the initial root and the proof verifier. */
  datatype Config = Config(h: Hash2, depth: nat, emptyRoot: nat,
                           verify: (VkId, Proof, seq<nat>) -> Result<bool, VeilError>)

  datatype Leaf = Leaf(cm: nat, ct: Bytes)

  datatype Core = Core(leaves: seq<Leaf>, spent: set<nat>, locked: set<nat>, modules: map<Address, bv32>)

  predicate Disjoint(core: Core) {
    core.spent !! core.locked
  }

  // ---- roots ---------------------------------------------------------------------------

  function Cms(leaves: seq<Leaf>): seq<nat> {
    seq(|leaves|, i requires 0 <= i < |leaves| => leaves[i].cm)
  }

  /** The initial root before any insertion, then the sparse root of the leaves. */
  function RootAfter(cfg: Config, leaves: seq<Leaf>): nat {
    if leaves == [] then cfg.emptyRoot else Root(cfg.h, cfg.depth, LeavesOf(Cms(leaves)))
  }

  /** The roots before the first and after each insertion, oldest first. */
  function RootHistory(cfg: Config, leaves: seq<Leaf>): (hist: seq<nat>)
    ensures |hist| == |leaves| + 1
  {
    seq(|leaves| + 1, k requires 0 <= k <= |leaves| => RootAfter(cfg, leaves[..k]))
  }

  function RootIsKnown(cfg: Config, core: Core, root: nat): bool {
    root in LastN(RootHistory(cfg, core.leaves), ROOT_WINDOW)
  }

  lemma RootHistoryPush(cfg: Config, leaves: seq<Leaf>, leaf: Leaf)
    ensures RootHistory(cfg, leaves + [leaf]) == RootHistory(cfg, leaves) + [RootAfter(cfg, leaves + [leaf])]
  {
    var all := leaves + [leaf];
    forall k | 0 <= k <= |leaves|
      ensures all[..k] == leaves[..k]
    {}
    assert all[..|all|] == all;
  }

  /** Pushing the new root and dropping the oldest keeps the window of the history. */
  lemma RootWindowPush(cfg: Config, leaves: seq<Leaf>, leaf: Leaf)
    ensures var w := LastN(RootHistory(cfg, leaves), ROOT_WINDOW) + [RootAfter(cfg, leaves + [leaf])];
            LastN(RootHistory(cfg, leaves + [leaf]), ROOT_WINDOW) == if |w| > ROOT_WINDOW then w[1..] else w
  {
    RootHistoryPush(cfg, leaves, leaf);
    LastNPush(RootHistory(cfg, leaves), RootAfter(cfg, leaves + [leaf]), ROOT_WINDOW);
  }

  function Cts(leaves: seq<Leaf>): map<nat, Bytes> {
    map i | 0 <= i < |leaves| :: leaves[i].ct
  }

  lemma LeavesPush(leaves: seq<Leaf>, leaf: Leaf)
    ensures LeavesOf(Cms(leaves + [leaf])) == LeavesOf(Cms(leaves))[|leaves| := leaf.cm]
    ensures Cts(leaves + [leaf]) == Cts(leaves)[|leaves| := leaf.ct]
  {}

  /** The known roots are those after the first k leaves that fewer than 50 others have followed. */
  lemma RootIsKnownIff(cfg: Config, core: Core, root: nat)
    ensures RootIsKnown(cfg, core, root)
            <==> exists k: nat :: k <= |core.leaves| < k + 50 && root == RootAfter(cfg, core.leaves[..k])
  {
    var hist := RootHistory(cfg, core.leaves);
    InLastN(hist, ROOT_WINDOW, root);
    if k: nat :| k <= |core.leaves| < k + 50 && root == RootAfter(cfg, core.leaves[..k]) {
      assert hist[k] == root;
    }
  }

  /** The current root of some moment stays known while fewer than 50 insertions follow. */
  lemma RootStaysKnown(cfg: Config, core: Core, later: Core)
    requires core.leaves <= later.leaves && |later.leaves| < |core.leaves| + 50
    ensures RootIsKnown(cfg, later, RootAfter(cfg, core.leaves))
  {
    assert later.leaves[..|core.leaves|] == core.leaves;
    RootIsKnownIff(cfg, later, RootAfter(cfg, core.leaves));
  }

  // ---- operations ------------------------------------------------------------------------

  function PermsOf(modules: map<Address, bv32>, caller: Address): bv32 {
    if caller in modules then modules[caller] else 0
  }

  predicate HasPerm(core: Core, caller: Address, perm: bv32) {
    PermsOf(core.modules, caller) & perm != 0
  }

  function RequirePerm(core: Core, caller: Address, perm: bv32): Result<(), VeilError> {
    if HasPerm(core, caller, perm) then Ok(()) else Err(Unauthorized)
  }

  function InsertInternal(cfg: Config, core: Core, cm: nat, ct: Bytes): Result<(Core, nat), VeilError> {
    if |ct| == 0 then Err(MissingAuditorCt)
    else if |core.leaves| >= Pow2(cfg.depth) then Err(TreeFull)
    else Ok((core.(leaves := core.leaves + [Leaf(cm, ct)]), |core.leaves|))
  }

  function InsertCommitment(cfg: Config, core: Core, caller: Address, cm: nat, ct: Bytes)
    : Result<(Core, nat), VeilError>
  {
    var _ :- RequirePerm(core, caller, PERM_INSERT);
    InsertInternal(cfg, core, cm, ct)
  }

  function SpendInternal(core: Core, nf: nat): Result<(Core, ()), VeilError> {
    if nf in core.spent then Err(AlreadySpent)
    else if nf in core.locked then Err(IsLocked)
    else Ok((core.(spent := core.spent + {nf}), ()))
  }

  function Spend(core: Core, caller: Address, nf: nat): Result<(Core, ()), VeilError> {
    var _ :- RequirePerm(core, caller, PERM_SPEND);
    SpendInternal(core, nf)
  }

  function Lock(core: Core, caller: Address, nf: nat): Result<(Core, ()), VeilError> {
    var _ :- RequirePerm(core, caller, PERM_LOCK);
    if nf in core.spent then Err(AlreadySpent)
    else if nf in core.locked then Err(AlreadyLocked)
    else Ok((core.(locked := core.locked + {nf}), ()))
  }

  function Unlock(core: Core, caller: Address, nf: nat): Result<(Core, ()), VeilError> {
    var _ :- RequirePerm(core, caller, PERM_LOCK);
    if nf !in core.locked then Err(NotLocked)
    else Ok((core.(locked := core.locked - {nf}), ()))
  }

  /** A zero nullifier stands for no input note. */
  function SpendIfSet(core: Core, nf: nat): Result<(Core, ()), VeilError> {
    if nf == 0 then Ok((core, ())) else SpendInternal(core, nf)
  }

  /** A zero commitment stands for no output note. */
  function InsertIfSet(cfg: Config, core: Core, cm: nat, ct: Bytes): Result<(Core, seq<nat>), VeilError> {
    if cm == 0 then Ok((core, []))
    else
      var (c, idx) :- InsertInternal(cfg, core, cm, ct);
      Ok((c, [idx]))
  }

  function CheckProof(cfg: Config, vk: VkId, proof: Proof, inputs: seq<nat>): Result<(), VeilError> {
    var ok :- cfg.verify(vk, proof, inputs);
    if ok then Ok(()) else Err(BadProof)
  }

  datatype TransferPublic = TransferPublic(root: nat, nfIn0: nat, nfIn1: nat, cmOut0: nat, cmOut1: nat,
                                           publicAmount: nat)

  function CtAt(cts: seq<Bytes>, i: nat): Bytes {
    if i < |cts| then cts[i] else []
  }

  function TransferNotes(cfg: Config, core: Core, proof: Proof, pub: TransferPublic, cts: seq<Bytes>)
    : Result<(Core, seq<nat>), VeilError>
  {
    if pub.publicAmount != 0 then Err(InvalidPublicAmount)
    else if !RootIsKnown(cfg, core, pub.root) then Err(UnknownRoot)
    else
      var _ :- CheckProof(cfg, Transfer, proof,
                          [pub.root, pub.nfIn0, pub.nfIn1, pub.cmOut0, pub.cmOut1, pub.publicAmount]);
      var (c1, _) :- SpendIfSet(core, pub.nfIn0);
      var (c2, _) :- SpendIfSet(c1, pub.nfIn1);
      var (c3, i0) :- InsertIfSet(cfg, c2, pub.cmOut0, CtAt(cts, 0));
      var (c4, i1) :- InsertIfSet(cfg, c3, pub.cmOut1, CtAt(cts, 1));
      Ok((c4, i0 + i1))
  }

  datatype WithdrawPublic = WithdrawPublic(root: nat, nfIn0: nat, nfIn1: nat, cmChange: nat, publicAmount: nat,
                                           assetId: nat, recipientHash: nat)

  function WithdrawNotes(cfg: Config, core: Core, proof: Proof, pub: WithdrawPublic, changeCt: Bytes)
    : Result<(Core, seq<nat>), VeilError>
  {
    if pub.publicAmount == 0 then Err(InvalidPublicAmount)
    else if !RootIsKnown(cfg, core, pub.root) then Err(UnknownRoot)
    else
      var _ :- CheckProof(cfg, Withdraw, proof,
                          [pub.root, pub.nfIn0, pub.nfIn1, pub.cmChange, pub.publicAmount, pub.assetId,
                           pub.recipientHash]);
      var (c1, _) :- SpendIfSet(core, pub.nfIn0);
      var (c2, _) :- SpendIfSet(c1, pub.nfIn1);
      InsertIfSet(cfg, c2, pub.cmChange, changeCt)
  }

  datatype DepositPublic = DepositPublic(cm: nat, publicAmount: nat, aspApprovedRoot: nat, aspBlockedRoot: nat)

  /** `aspAccepts` is the answer of the association-set provider's entry check. */
  function DepositNote(cfg: Config, core: Core, aspAccepts: bool, proof: Proof, pub: DepositPublic, ct: Bytes)
    : Result<(Core, nat), VeilError>
  {
    if !aspAccepts then Err(AspRejected)
    else
      var _ :- CheckProof(cfg, Deposit, proof, [pub.cm, pub.publicAmount, pub.aspApprovedRoot, pub.aspBlockedRoot]);
      InsertInternal(cfg, core, pub.cm, ct)
  }
}
