/** A run in which an order is refunded and then settled, since settlement does not read the refund marks. */
module RefundedSale {
  import opened Words
  import opened Field
  import opened Notes
  import opened Membership
  import opened NoteCircuit
  import opened CoreState
  import opened AmmState
  import opened System
  import opened BatchSafety
  import opened SmallDeployment
  import BatchCircuit
  import Clearing
  import OrderSafety

  // ---- the refund ------------------------------------------------------------------------------

  function RefundNote(): NoteData {
    NoteData(100, 1, 5, 6)
  }

  function RefundCall(hs: Hashes, h: Hash2): Call {
    Refund(101, 0, 0, Proof([], [], []), HoldingRoot(hs, h), NoteCm(hs, RefundNote()), [1])
  }

  lemma RefundProves(hs: Hashes, h: Hash2, k: nat)
    requires RootIsRead(hs, h)
    ensures Provable(hs, h, k, false, VkId.SettleOrRefund,
                     Fields(hs, [0, NullifierOf(hs, 0), NoteCm(hs, RefundNote()), HoldingRoot(hs, h), 100]))
  {
    WitnessProves(hs, h, 0);
    var inputs := [0, NullifierOf(hs, 0), NoteCm(hs, RefundNote()), HoldingRoot(hs, h), 100];
    var blinding: Fe, pk: Fe := 5, 6;
    assert SatisfiesRefund(hs, h, 2, Fields(hs, inputs), Witness(0), blinding, pk);
  }

  // ---- the settlement ---------------------------------------------------------------------------

  /** 9 units of asset 2 for 10 of asset 1. */
  function State(): Clearing.ClearingState {
    Clearing.ClearingState(BatchCircuit.Price(9, 10, 1, 2), 1000, 1000, 0, 0)
  }

  function Cleared(): Clearing.Clearing {
    Clearing.Clearing([90], [0], [0], 1100, 910)
  }

  function PostReserves(): BatchCircuit.Reserves {
    BatchCircuit.Reserves(1100, 910, 1000)
  }

  lemma SaleClears()
    ensures Clearing.IsClearing(State(), [Sale()], Cleared()) && Clearing.Fits(State(), [Sale()], Cleared())
  {
    var orders, outs: seq<nat> := [Sale()], [90];
    assert orders[..0] == [] && outs[..0] == [];
    assert BatchCircuit.TotalIn(orders, 2) == 100 && BatchCircuit.TotalIn(orders, 1) == 0;
    assert BatchCircuit.TotalOut(orders, outs, 2) == 90 && BatchCircuit.TotalOut(orders, outs, 1) == 0;
  }

  ghost function SettleWitness(): BatchCircuit.Witness {
    SaleClears();
    Clearing.WitnessOf(State(), [Sale()], Cleared(), 1000, 0, 0)
  }

  lemma SettleConstraints()
    ensures BatchCircuit.Constraints(SettleWitness())
    ensures SettleWitness().pre == PreReserves() && SettleWitness().post == PostReserves()
  {
    SaleClears();
    Clearing.ClearingSatisfiesCircuitIff(State(), [Sale()], Cleared(), 1000, 0, 0);
  }

  function PreCm(hs: Hashes): nat {
    BatchCircuit.ReserveCm(hs, PreReserves(), 0)
  }

  function PostCm(hs: Hashes): nat {
    BatchCircuit.ReserveCm(hs, PostReserves(), 0)
  }

  function SettleCall(hs: Hashes): Call {
    Settle(0, Proof([], [], []), [(BatchCircuit.OutputCm(hs, Sale(), 90), [1])], PostCm(hs), [])
  }

  function Payment(hs: Hashes): Leaf {
    Leaf(BatchCircuit.OutputCm(hs, Sale(), 90), [1])
  }

  lemma SettleProves(hs: Hashes, h: Hash2)
    requires Reads(hs)
    ensures Provable(hs, h, 1, false, VkId.BatchSettle,
                     Fields(hs, [BatchCircuit.OrderHash(hs, Sale(), 0), BatchCircuit.OutputCm(hs, Sale(), 90), 0, 0,
                                 PreCm(hs), PostCm(hs)]))
  {
    SettleConstraints();
    var inputs := [BatchCircuit.OrderHash(hs, Sale(), 0), BatchCircuit.OutputCm(hs, Sale(), 90), 0, 0, PreCm(hs),
                   PostCm(hs)];
    assert BatchCircuit.Satisfies(hs, 1, Fields(hs, inputs), SettleWitness());
  }

  // ---- the run ------------------------------------------------------------------------------------

  /** The note is sold; the order is refunded once its deadline has passed, and then settled with its batch. */
  function Run(hs: Hashes, h: Hash2): seq<Call> {
    Setup(hs) + [SubmitCall(hs, h, NullifierOf(hs, 0)), RefundCall(hs, h), SettleCall(hs)]
  }

  function Sold(hs: Hashes): Sys {
    WithOrder(hs, Ready(hs, 1), NullifierOf(hs, 0))
  }

  function Refunded(hs: Hashes): Sys {
    Sold(hs).(core := Sold(hs).core.(leaves := [HoldingLeaf(hs), Leaf(NoteCm(hs, RefundNote()), [1])]),
              amm := Sold(hs).amm.(refunded := {(0, 0)}))
  }

  lemma NoteIsSold(hs: Hashes, h: Hash2)
    requires RootIsRead(hs, h)
    ensures At(Deployment(hs, h, 1, false), Start(1), Run(hs, h), 6) == Sold(hs)
  {
    var cfg := Deployment(hs, h, 1, false);
    SetupRuns(cfg, hs, 1);
    assert Run(hs, h)[..5] == Setup(hs);
    OrderIsTaken(hs, h, 1, false, Ready(hs, 1), NullifierOf(hs, 0), 0);
    AtStep(cfg, Start(1), Run(hs, h), 5);
  }

  lemma VerifiedRefund(cfg: Config, hs: Hashes)
    requires cfg.depth == 2 && RootIsKnown(cfg, Sold(hs).core, HoldingRoot(hs, cfg.h))
    requires cfg.verify(VkId.SettleOrRefund, Proof([], [], []),
                        [0, NullifierOf(hs, 0), NoteCm(hs, RefundNote()), HoldingRoot(hs, cfg.h), 100]) == Ok(true)
    ensures Apply(cfg, Sold(hs), RefundCall(hs, cfg.h)) == Some(Refunded(hs))
  {
    assert Pow2(2) == 4;
    assert Sold(hs).core.leaves + [Leaf(NoteCm(hs, RefundNote()), [1])] == Refunded(hs).core.leaves;
    assert Sold(hs).amm.refunded + {(0, 0)} == {(0, 0)};
  }

  lemma OrderIsRefunded(hs: Hashes, h: Hash2)
    requires RootIsRead(hs, h)
    ensures Apply(Deployment(hs, h, 1, false), Sold(hs), RefundCall(hs, h)) == Some(Refunded(hs))
  {
    HoldingRootIsKnown(Deployment(hs, h, 1, false), hs, Sold(hs).core);
    RefundProves(hs, h, 1);
    VerifiedRefund(Deployment(hs, h, 1, false), hs);
  }

  lemma SettleInputsOf(hs: Hashes)
    ensures BatchStored(Refunded(hs).amm, 0)
    ensures SettleInputs(Refunded(hs).amm, 0, SettleCall(hs).outputs, PreCm(hs), PostCm(hs))
            == [BatchCircuit.OrderHash(hs, Sale(), 0), BatchCircuit.OutputCm(hs, Sale(), 90), 0, 0, PreCm(hs),
                PostCm(hs)]
  {}

  lemma VerifiedSettlement(cfg: Config, hs: Hashes)
    requires cfg.depth == 2 && BatchStored(Refunded(hs).amm, 0)
    requires cfg.verify(VkId.BatchSettle, Proof([], [], []),
                        SettleInputs(Refunded(hs).amm, 0, SettleCall(hs).outputs, PreCm(hs), PostCm(hs))) == Ok(true)
    ensures Apply(cfg, Refunded(hs), SettleCall(hs)).Some?
    ensures Apply(cfg, Refunded(hs), SettleCall(hs)).value.core.leaves == Refunded(hs).core.leaves + [Payment(hs)]
  {
    InsertAllSucceedsIff(cfg, Refunded(hs).core, 1, SettleCall(hs).outputs);
    assert Pow2(2) == 4;
  }

  lemma OrderIsSettled(hs: Hashes, h: Hash2)
    requires Reads(hs)
    ensures var t := Apply(Deployment(hs, h, 1, false), Refunded(hs), SettleCall(hs));
            t.Some? && t.value.core.leaves == Refunded(hs).core.leaves + [Payment(hs)]
  {
    SettleInputsOf(hs);
    SettleProves(hs, h);
    VerifiedSettlement(Deployment(hs, h, 1, false), hs);
  }

  lemma RunIsPermitted(hs: Hashes, h: Hash2)
    ensures IsInitial(Start(1)) && AllPermitted(Start(1), Run(hs, h))
  {
    SetupIsPermitted(hs, 1);
  }

  /** The note sold, the note given back and the payment. */
  function FinalLeaves(hs: Hashes): seq<Leaf> {
    [HoldingLeaf(hs), Leaf(NoteCm(hs, RefundNote()), [1]), Payment(hs)]
  }

  lemma RunSettlesTheRefunded(hs: Hashes, h: Hash2)
    requires RootIsRead(hs, h)
    ensures RefundsAt(Deployment(hs, h, 1, false), Start(1), Run(hs, h), 6, 0, 0)
    ensures SettlesAt(Deployment(hs, h, 1, false), Start(1), Run(hs, h), 7, 0)
    ensures (0, 0) in At(Deployment(hs, h, 1, false), Start(1), Run(hs, h), 7).amm.refunded
    ensures After(Deployment(hs, h, 1, false), Start(1), Run(hs, h)).core.leaves == FinalLeaves(hs)
  {
    NoteIsSold(hs, h);
    OrderIsRefunded(hs, h);
    OrderIsSettled(hs, h);
    AtStep(Deployment(hs, h, 1, false), Start(1), Run(hs, h), 6);
    AtStep(Deployment(hs, h, 1, false), Start(1), Run(hs, h), 7);
  }

  lemma RunBreaksExclusion(hs: Hashes, h: Hash2)
    requires RootIsRead(hs, h)
    ensures !Exclusive(After(Deployment(hs, h, 1, false), Start(1), Run(hs, h)).amm)
  {
    RunIsPermitted(hs, h);
    RunSettlesTheRefunded(hs, h);
    SettlingRefundedBreaks(Deployment(hs, h, 1, false), Start(1), Run(hs, h), 7, 0, 0);
  }

  lemma OrderSellsHolding(hs: Hashes, h: Hash2)
    requires Reads(hs)
    ensures Run(hs, h)[5] == SubmitCall(hs, h, NullifierOf(hs, 0))
    ensures OrderSafety.IsNoteOf(hs, NullifierOf(hs, 0), Holding(hs))
  {
    assert OrderSafety.IsNullifierOf(hs, NullifierOf(hs, 0), Holding(hs), 7, 0);
  }

  /**
   * The mechanism is one-sided. Whatever binding hashes are used, and with a verifier that accepts exactly what the
   * circuits prove, a permitted run sells a note, refunds the order after its deadline and settles it with its batch,
   * so that the tree holds both the note given back and the payment.
   */
  lemma RefundedOrderCanBeSettled(hs: Hashes, h: Hash2)
    requires Binding(hs) && Reads(hs) && BindingTree(hs.read, h)
    ensures var cfg := Deployment(hs, h, 1, false);
            && BindingTrees(cfg, hs) && SoundVerifier(cfg, hs, 1, false)
            && IsInitial(Start(1)) && AllPermitted(Start(1), Run(hs, h))
    ensures Run(hs, h)[5] == SubmitCall(hs, h, NullifierOf(hs, 0))
    ensures OrderSafety.IsNoteOf(hs, NullifierOf(hs, 0), Holding(hs))
    ensures var cfg := Deployment(hs, h, 1, false);
            && RefundsAt(cfg, Start(1), Run(hs, h), 6, 0, 0) && SettlesAt(cfg, Start(1), Run(hs, h), 7, 0)
            && !Exclusive(After(cfg, Start(1), Run(hs, h)).amm)
            && After(cfg, Start(1), Run(hs, h)).core.leaves == FinalLeaves(hs)
  {
    VerifierIsSound(hs, h, 1, false);
    DeploymentBinds(hs, h, 1, false);
    RunIsPermitted(hs, h);
    RunSettlesTheRefunded(hs, h);
    RunBreaksExclusion(hs, h);
    OrderSellsHolding(hs, h);
  }
}
