/**
 * A deployment of depth 2 whose verifier accepts exactly what the circuits prove, and calls by the owner of its first
 * note.
 */
module SmallDeployment {
  import opened Words
  import opened Field
  import opened Notes
  import opened SparseTree
  import opened Membership
  import opened NoteCircuit
  import opened TransferCircuit
  import opened CoreState
  import opened AmmState
  import opened LendState
  import opened LoanInvariant
  import opened System
  import BatchCircuit
  import Conservation
  import LeafSafety
  import LendCircuit
  import Liquidity
  import LoanSafety
  import OrderSafety
  import ReserveSafety

  /**
   * Some witness satisfies the key's circuit; `checked` constrains the index in those of loans and orders. Deposits are
   * not accepted at all, since the model has only a part of their circuit; no run here makes one.
   */
  ghost predicate Provable(hs: Hashes, h: Hash2, k: nat, checked: bool, vk: VkId, inputs: seq<nat>) {
    match vk
    case Lend => exists w :: LendCircuit.Satisfies(hs, h, 2, inputs, w) && (checked ==> IndexIsOfPath(w.collat))
    case Swap => exists w, o :: SatisfiesSwap(hs, h, 2, inputs, w, o) && (checked ==> IndexIsOfPath(w))
    case SettleOrRefund =>
      exists w: Owned, blinding: Fe, pk: Fe :: SatisfiesRefund(hs, h, 2, inputs, w, blinding, pk)
    case Repay => exists w :: SatisfiesRepay(hs, h, 2, inputs, w)
    case BatchSettle => exists w :: BatchCircuit.Satisfies(hs, k, inputs, w)
    case AddLiquidity => exists w, in0, in1, share :: Liquidity.SatisfiesAdd(hs, h, 2, inputs, w, in0, in1, share)
    case RemoveLiquidity =>
      exists w, share, out0, out1 :: Liquidity.SatisfiesRemove(hs, h, 2, inputs, w, share, out0, out1)
    case Transfer => exists in0, in1, out0, out1 :: SatisfiesTransfer(hs, h, 2, inputs, in0, in1, out0, out1)
    case Withdraw => exists in0, in1, change :: SatisfiesWithdraw(hs, h, 2, inputs, in0, in1, change)
    case Deposit => false
  }

  ghost function ExactVerifier(hs: Hashes, h: Hash2, k: nat, checked: bool)
    : (VkId, Proof, seq<nat>) -> Result<bool, VeilError>
  {
    (vk, proof, inputs) => Ok(Provable(hs, h, k, checked, vk, Fields(hs, inputs)))
  }

  ghost function Deployment(hs: Hashes, h: Hash2, k: nat, checked: bool): Config {
    Config(h, 2, 0, ExactVerifier(hs, h, k, checked))
  }

  /** Everything that is assumed of verifiers, those of checked circuits included. */
  ghost predicate SoundVerifier(cfg: Config, hs: Hashes, k: nat, checked: bool) {
    && LoanSafety.SoundLending(cfg, hs) && OrderSafety.SoundOrders(cfg, hs) && ReserveSafety.SoundPool(cfg, hs, k)
    && Conservation.SoundTransfers(cfg, hs)
    && (checked ==> LeafSafety.SoundGuarded(cfg, hs))
  }

  lemma VerifierIsSound(hs: Hashes, h: Hash2, k: nat, checked: bool)
    ensures SoundVerifier(Deployment(hs, h, k, checked), hs, k, checked)
  {}

  lemma DeploymentBinds(hs: Hashes, h: Hash2, k: nat, checked: bool)
    requires Binding(hs) && Reads(hs) && BindingTree(hs.read, h)
    ensures BindingTrees(Deployment(hs, h, k, checked), hs)
  {
    ZeroRootHoldsNoNote(Deployment(hs, h, k, checked), hs);
  }

  // ---- one note ---------------------------------------------------------------------------------

  /** 100 units of asset 1. */
  function Holding(hs: Hashes): NoteData {
    NoteData(100, 1, 0, hs.h1(7))
  }

  function HoldingLeaf(hs: Hashes): Leaf {
    Leaf(NoteCm(hs, Holding(hs)), [1])
  }

  function NullifierOf(hs: Hashes, index: nat): nat {
    Nullifier(hs, 7, index, NoteCm(hs, Holding(hs)))
  }

  /** The root of the tree that holds the note alone. */
  function HoldingRoot(hs: Hashes, h: Hash2): nat {
    h(h(NoteCm(hs, Holding(hs)), 0), 0)
  }

  ghost predicate RootIsRead(hs: Hashes, h: Hash2) {
    Reads(hs) && hs.read(HoldingRoot(hs, h)) == HoldingRoot(hs, h)
  }

  function Witness(index: nat): Owned
    requires index < 4
  {
    Owned(100, 1, 0, 7, index, [0, 0], [0, 0])
  }

  lemma PathToHolding(h: Hash2, cm: nat)
    ensures Fold(h, cm, [0, 0], [0, 0]) == h(h(cm, 0), 0)
    ensures Root(h, 2, LeavesOf([cm])) == h(h(cm, 0), 0)
  {
    var zeros: seq<nat> := [0, 0];
    assert zeros[..1] == [0] && zeros[..1][..0] == [];
    assert Fold(h, cm, zeros[..1], zeros[..1]) == h(cm, 0);
    assert Node(h, LeavesOf([cm]), 1, 0) == Some(h(cm, 0));
    assert Node(h, LeavesOf([cm]), 1, 1) == None;
  }

  lemma WitnessProves(hs: Hashes, h: Hash2, index: nat)
    requires index < 4
    ensures Proves(hs, h, 2, HoldingRoot(hs, h), NullifierOf(hs, index), Witness(index))
    ensures NoteOf(hs, Witness(index)) == Holding(hs)
    ensures index == 0 ==> IndexIsOfPath(Witness(index))
  {
    PathToHolding(h, NoteCm(hs, Holding(hs)));
    assert NoteOf(hs, Witness(index)) == Holding(hs);
    var zeros: seq<nat> := [0, 0];
    assert zeros[..1][..0] == [];
    assert PathIndex(0, zeros) == PathIndex(0, zeros[..1]) == PathIndex(0, zeros[..1][..0]) == 0;
  }

  // ---- before any claim -----------------------------------------------------------------------------

  const PERM_ALL: bv32 := PERM_INSERT | PERM_SPEND | PERM_LOCK

  function Start(k: nat): Sys {
    Sys(Core([], {}, {}, map[]), Amm(1, 0, k, 0, map[], map[], {}, map[], {}, None, {}),
        Lend.Lend(2, 7500, 3600, 0, map[]))
  }

  function PreReserves(): BatchCircuit.Reserves {
    BatchCircuit.Reserves(1000, 1000, 1000)
  }

  function Setup(hs: Hashes): seq<Call> {
    [RegisterModule(1, PERM_INSERT | PERM_SPEND), RegisterModule(2, PERM_ALL), RegisterModule(9, PERM_INSERT),
     StartReserves(BatchCircuit.ReserveCm(hs, PreReserves(), 0), []),
     ModuleInsert(9, NoteCm(hs, Holding(hs)), [1])]
  }

  function Modules(): map<Address, bv32> {
    map[1 := PERM_INSERT | PERM_SPEND, 2 := PERM_ALL, 9 := PERM_INSERT]
  }

  /** The note is in the tree and the pool has its reserves. */
  function Ready(hs: Hashes, k: nat): Sys {
    var reserves := EncReserves(BatchCircuit.ReserveCm(hs, PreReserves(), 0), []);
    Start(k).(core := Core([HoldingLeaf(hs)], {}, {}, Modules()), amm := Start(k).amm.(reserves := Some(reserves)))
  }

  lemma SetupRuns(cfg: Config, hs: Hashes, k: nat)
    requires cfg.depth == 2
    ensures After(cfg, Start(k), Setup(hs)) == Ready(hs, k)
  {
    var s, calls := Start(k), Setup(hs);
    AtStep(cfg, s, calls, 0);
    AtStep(cfg, s, calls, 1);
    AtStep(cfg, s, calls, 2);
    AtStep(cfg, s, calls, 3);
    AtStep(cfg, s, calls, 4);
    assert Pow2(2) == 4;
  }

  lemma SetupIsPermitted(hs: Hashes, k: nat)
    requires k < TWO_32
    ensures IsInitial(Start(k)) && AllPermitted(Start(k), Setup(hs))
  {}

  lemma HoldingRootIsKnown(cfg: Config, hs: Hashes, core: Core)
    requires cfg.depth == 2 && [HoldingLeaf(hs)] <= core.leaves && |core.leaves| <= 4
    ensures RootIsKnown(cfg, core, HoldingRoot(hs, cfg.h))
  {
    var first := Core([HoldingLeaf(hs)], {}, {}, map[]);
    assert Cms(first.leaves) == [NoteCm(hs, Holding(hs))];
    PathToHolding(cfg.h, NoteCm(hs, Holding(hs)));
    RootStaysKnown(cfg, first, core);
  }

  // ---- loans on the note ------------------------------------------------------------------------------

  /** Each loan is of 75, all that 100 allow at a ratio of 7500 and equal prices. */
  function Borrowed(hs: Hashes, b: nat): NoteData {
    NoteData(75, 0, b, hs.h1(7))
  }

  function BorrowCall(hs: Hashes, h: Hash2, nf: nat, b: nat): Call {
    Borrow(Feed(0, asset => Some(PriceData(1, 0))), Proof([], [], []), nf, NoteCm(hs, Borrowed(hs, b)), [1], 0, 0,
           HoldingRoot(hs, h), OracleClaim(1, 0, 1))
  }

  function LoanWitness(index: nat, b: nat): LendCircuit.Witness
    requires index < 4 && b < 4
  {
    LendCircuit.Witness(Witness(index), 75, 0, b)
  }

  lemma RatioHolds(index: nat, b: nat)
    requires index < 4 && b < 4
    ensures LendCircuit.LtvConstraints(1, 7500, 1, LoanWitness(index, b))
  {
    LendCircuit.LtvConstraintsMean(1, 7500, 1, LoanWitness(index, b));
  }

  lemma LoanProves(hs: Hashes, h: Hash2, k: nat, checked: bool, lend: Lend, nf: nat, index: nat, b: nat)
    requires RootIsRead(hs, h) && index < 4 && b < 4 && lend.ltvBps == 7500
    requires hs.read(nf) == NullifierOf(hs, index) && (checked ==> index == 0)
    ensures var c := BorrowCall(hs, h, nf, b);
            Provable(hs, h, k, checked, VkId.Lend,
                     Fields(hs, LendInputs(lend, c.root, c.collatNf, c.borrowCm, c.claim)))
  {
    var c, w := BorrowCall(hs, h, nf, b), LoanWitness(index, b);
    var inputs := LendInputs(lend, c.root, c.collatNf, c.borrowCm, c.claim);
    WitnessProves(hs, h, index);
    RatioHolds(index, b);
    assert LendCircuit.BorrowNote(hs, w) == Borrowed(hs, b);
    assert hs.read(inputs[3]) == 1 && hs.read(inputs[5]) == 7500 && hs.read(inputs[6]) == 1;
    assert LendCircuit.Satisfies(hs, h, 2, Fields(hs, inputs), w);
  }

  function LoanRecord(hs: Hashes, nf: nat, b: nat): LoanRec {
    LoanRec(nf, NoteCm(hs, Borrowed(hs, b)), 1, 1, 7500, false)
  }

  function WithLoan(hs: Hashes, s: Sys, nf: nat, b: nat): Sys {
    var w := OpenedWorld(LendWorld(s.core, s.lend), LoanRecord(hs, nf, b), [1]);
    s.(core := w.core, lend := w.lend)
  }

  lemma VerifiedLoanOpens(cfg: Config, hs: Hashes, s: Sys, nf: nat, b: nat)
    requires cfg.depth == 2 && s.lend.addr == 2 && s.lend.ltvBps == 7500 && s.core.modules == Modules()
    requires RootIsKnown(cfg, s.core, HoldingRoot(hs, cfg.h)) && |s.core.leaves| < 4
    requires nf !in s.core.spent && nf !in s.core.locked
    requires var c := BorrowCall(hs, cfg.h, nf, b);
             cfg.verify(VkId.Lend, c.proof, LendInputs(s.lend, c.root, c.collatNf, c.borrowCm, c.claim)) == Ok(true)
    ensures Apply(cfg, s, BorrowCall(hs, cfg.h, nf, b)) == Some(WithLoan(hs, s, nf, b))
  {
    assert Pow2(2) == 4;
  }

  /** A loan opens under any number that is read as a nullifier of the note and is free. */
  lemma LoanOpens(hs: Hashes, h: Hash2, k: nat, checked: bool, s: Sys, nf: nat, index: nat, b: nat)
    requires RootIsRead(hs, h) && index < 4 && b < 4
    requires hs.read(nf) == NullifierOf(hs, index) && (checked ==> index == 0)
    requires s.lend.addr == 2 && s.lend.ltvBps == 7500 && s.core.modules == Modules()
    requires [HoldingLeaf(hs)] <= s.core.leaves && |s.core.leaves| < 4
    requires nf !in s.core.spent && nf !in s.core.locked
    ensures Apply(Deployment(hs, h, k, checked), s, BorrowCall(hs, h, nf, b)) == Some(WithLoan(hs, s, nf, b))
  {
    HoldingRootIsKnown(Deployment(hs, h, k, checked), hs, s.core);
    LoanProves(hs, h, k, checked, s.lend, nf, index, b);
    VerifiedLoanOpens(Deployment(hs, h, k, checked), hs, s, nf, b);
  }

  // ---- orders that sell the note ----------------------------------------------------------------------

  /** All of the note for asset 2, at whatever price. */
  function Sale(): BatchCircuit.Order {
    BatchCircuit.Order(100, 2, 0, 0, 0, 0)
  }

  function SubmitCall(hs: Hashes, h: Hash2, nf: nat): Call {
    Submit(0, 9, Proof([], [], []), [], nf, BatchCircuit.OrderHash(hs, Sale(), 0), HoldingRoot(hs, h))
  }

  lemma SaleProves(hs: Hashes, h: Hash2, k: nat, checked: bool, nf: nat, index: nat)
    requires RootIsRead(hs, h) && index < 4
    requires hs.read(nf) == NullifierOf(hs, index) && (checked ==> index == 0)
    ensures Provable(hs, h, k, checked, VkId.Swap,
                     Fields(hs, [HoldingRoot(hs, h), nf, BatchCircuit.OrderHash(hs, Sale(), 0), 0]))
  {
    WitnessProves(hs, h, index);
    var inputs := [HoldingRoot(hs, h), nf, BatchCircuit.OrderHash(hs, Sale(), 0), 0];
    assert SatisfiesSwap(hs, h, 2, Fields(hs, inputs), Witness(index), Sale());
  }

  function SaleRecord(hs: Hashes, nf: nat): OrderRecord {
    OrderRecord([], nf, BatchCircuit.OrderHash(hs, Sale(), 0), 9)
  }

  function WithOrder(hs: Hashes, s: Sys, nf: nat): Sys
    requires TakeSlot(s.amm, 0, SaleRecord(hs, nf)).Ok?
  {
    s.(core := s.core.(spent := s.core.spent + {nf}), amm := TakeSlot(s.amm, 0, SaleRecord(hs, nf)).value.0)
  }

  lemma VerifiedOrderIsTaken(cfg: Config, hs: Hashes, s: Sys, nf: nat)
    requires s.amm.addr == 1 && s.amm.commPk == 0 && s.core.modules == Modules()
    requires RootIsKnown(cfg, s.core, HoldingRoot(hs, cfg.h)) && TakeSlot(s.amm, 0, SaleRecord(hs, nf)).Ok?
    requires nf !in s.core.spent && nf !in s.core.locked
    requires var c := SubmitCall(hs, cfg.h, nf);
             cfg.verify(VkId.Swap, c.proof, [c.root, nf, c.encOrderHash, 0]) == Ok(true)
    ensures Apply(cfg, s, SubmitCall(hs, cfg.h, nf)) == Some(WithOrder(hs, s, nf))
  {}

  /** An order is taken under any such number while the current batch has a slot. */
  lemma OrderIsTaken(hs: Hashes, h: Hash2, k: nat, checked: bool, s: Sys, nf: nat, index: nat)
    requires RootIsRead(hs, h) && index < 4
    requires hs.read(nf) == NullifierOf(hs, index) && (checked ==> index == 0)
    requires s.amm.addr == 1 && s.amm.commPk == 0 && s.core.modules == Modules()
    requires OrderCount(s.amm, s.amm.batchSeq) < s.amm.k
    requires [HoldingLeaf(hs)] <= s.core.leaves && |s.core.leaves| <= 4
    requires nf !in s.core.spent && nf !in s.core.locked
    ensures TakeSlot(s.amm, 0, SaleRecord(hs, nf)).Ok?
    ensures Apply(Deployment(hs, h, k, checked), s, SubmitCall(hs, h, nf)) == Some(WithOrder(hs, s, nf))
  {
    HoldingRootIsKnown(Deployment(hs, h, k, checked), hs, s.core);
    SaleProves(hs, h, k, checked, nf, index);
    VerifiedOrderIsTaken(Deployment(hs, h, k, checked), hs, s, nf);
  }

  lemma NullifiersDiffer(hs: Hashes, i: nat, j: nat)
    requires Binding(hs) && i != j
    ensures NullifierOf(hs, i) != NullifierOf(hs, j)
  {
    assert hs.h3(7, i, NoteCm(hs, Holding(hs))) != hs.h3(7, j, NoteCm(hs, Holding(hs)));
  }
}
