/** What follows from the free index: a note can be claimed any number of times. */
module LeafReuse {
  import opened Words
  import opened Field
  import opened Notes
  import opened Membership
  import opened NoteCircuit
  import opened CoreState
  import opened AmmState
  import opened LendState
  import opened LoanInvariant
  import opened System
  import opened SmallDeployment
  import BatchCircuit
  import LendCircuit
  import OrderSafety

  // ---- in every state ------------------------------------------------------------------------

  /** Among any |used| + 1 successive indices one gives a nullifier of the note that is not used. */
  lemma {:induction false} SomeIndexIsFree(hs: Hashes, ownerSk: nat, cm: nat, used: set<nat>, from: nat)
    returns (index: nat)
    requires Injective3(hs.h3)
    ensures from <= index <= from + |used| && Nullifier(hs, ownerSk, index, cm) !in used
    decreases |used|
  {
    var nf := Nullifier(hs, ownerSk, from, cm);
    if nf !in used {
      index := from;
    } else {
      index := SomeIndexIsFree(hs, ownerSk, cm, used - {nf}, from + 1);
      var f := hs.h3;
      assert f(ownerSk, index, cm) != f(ownerSk, from, cm);
    }
  }

  /** Whatever a circuit proves has a proof that the verifier accepts. */
  ghost predicate CompleteClaims(cfg: Config, hs: Hashes) {
    && (forall inputs, w :: LendCircuit.Satisfies(hs, cfg.h, cfg.depth, Fields(hs, inputs), w) ==>
                              exists proof :: cfg.verify(VkId.Lend, proof, inputs) == Ok(true))
    && (forall inputs, w, o :: SatisfiesSwap(hs, cfg.h, cfg.depth, Fields(hs, inputs), w, o) ==>
                                 exists proof :: cfg.verify(VkId.Swap, proof, inputs) == Ok(true))
  }

  lemma DeploymentIsComplete(hs: Hashes, h: Hash2, k: nat)
    ensures CompleteClaims(Deployment(hs, h, k, false), hs)
  {
    var cfg, proof := Deployment(hs, h, k, false), Proof([], [], []);
    forall inputs, w | LendCircuit.Satisfies(hs, h, 2, Fields(hs, inputs), w)
      ensures cfg.verify(VkId.Lend, proof, inputs) == Ok(true)
    {}
    forall inputs, w, o | SatisfiesSwap(hs, h, 2, Fields(hs, inputs), w, o)
      ensures cfg.verify(VkId.Swap, proof, inputs) == Ok(true)
    {}
  }

  lemma FieldsUpdated(hs: Hashes, inputs: seq<nat>, i: nat, x: nat)
    requires i < |inputs|
    ensures Fields(hs, inputs[i := x]) == Fields(hs, inputs)[i := hs.read(x)]
  {}

  predicate MayStillClaim(core: Core) {
    |core.spent + core.locked| < P
  }

  /**
   * While fewer nullifiers are recorded than the field has elements, whoever can prove a loan on a note, under whatever
   * nullifier, can open it under a nullifier of the note that is free, however often the note was pledged or spent.
   */
  lemma LoanOpensAgain(cfg: Config, hs: Hashes, s: LendWorld, feed: Feed, nf: nat, borrowCm: nat, ct: Bytes,
                       collatAsset: Asset, borrowAsset: Asset, root: nat, claim: OracleClaim, w: LendCircuit.Witness)
    returns (proof: Proof, free: nat)
    requires Binding(hs) && Reads(hs) && CompleteClaims(cfg, hs) && MayStillClaim(s.core)
    requires LendCircuit.Satisfies(hs, cfg.h, cfg.depth,
                                   Fields(hs, LendInputs(s.lend, root, nf, borrowCm, claim)), w)
    requires ct != [] && RootIsKnown(cfg, s.core, root) && |s.core.leaves| < Pow2(cfg.depth)
    requires IsFresh(s.lend, feed, collatAsset, claim.oraclePrice)
    requires IsFresh(s.lend, feed, borrowAsset, claim.borrowPrice)
    requires HasPerm(s.core, s.lend.addr, PERM_LOCK) && HasPerm(s.core, s.lend.addr, PERM_INSERT)
    ensures OpenLoan(cfg, s, feed, proof, free, borrowCm, ct, collatAsset, borrowAsset, root, claim).Ok?
    ensures OrderSafety.IsNoteOf(hs, free, NoteOf(hs, w.collat))
  {
    var cm := NoteCm(hs, NoteOf(hs, w.collat));
    var index := SomeIndexIsFree(hs, w.collat.ownerSk, cm, s.core.spent + s.core.locked, 0);
    free := Nullifier(hs, w.collat.ownerSk, index, cm);
    var inputs := LendInputs(s.lend, root, nf, borrowCm, claim);
    LendCircuit.AnyIndexSatisfies(hs, cfg.h, cfg.depth, Fields(hs, inputs), w, index);
    FieldsUpdated(hs, inputs, 1, free);
    assert inputs[1 := free] == LendInputs(s.lend, root, free, borrowCm, claim);
    proof :| cfg.verify(VkId.Lend, proof, LendInputs(s.lend, root, free, borrowCm, claim)) == Ok(true);
    assert OrderSafety.IsNullifierOf(hs, free, NoteOf(hs, w.collat), w.collat.ownerSk, index);
  }

  /** The same for an order, while the current batch has a slot. */
  lemma OrderIsTakenAgain(cfg: Config, hs: Hashes, s: World, ledger: nat, submitter: Address, encOrder: Bytes, nf: nat,
                          encOrderHash: nat, root: nat, w: Owned, o: BatchCircuit.Order)
    returns (proof: Proof, free: nat)
    requires Binding(hs) && Reads(hs) && CompleteClaims(cfg, hs) && MayStillClaim(s.core)
    requires SatisfiesSwap(hs, cfg.h, cfg.depth, Fields(hs, [root, nf, encOrderHash, s.amm.commPk]), w, o)
    requires RootIsKnown(cfg, s.core, root) && HasPerm(s.core, s.amm.addr, PERM_SPEND)
    requires OrderCount(s.amm, s.amm.batchSeq) < s.amm.k && ledger + 100 < TWO_32
    ensures SubmitOrder(cfg, s, ledger, submitter, proof, encOrder, free, encOrderHash, root).Ok?
    ensures OrderSafety.IsNoteOf(hs, free, NoteOf(hs, w))
  {
    var cm := NoteCm(hs, NoteOf(hs, w));
    var index := SomeIndexIsFree(hs, w.ownerSk, cm, s.core.spent + s.core.locked, 0);
    free := Nullifier(hs, w.ownerSk, index, cm);
    var inputs := [root, nf, encOrderHash, s.amm.commPk];
    AnyIndexProves(hs, cfg.h, cfg.depth, hs.read(root), hs.read(nf), w, index);
    FieldsUpdated(hs, inputs, 1, free);
    assert inputs[1 := free] == [root, free, encOrderHash, s.amm.commPk];
    assert SatisfiesSwap(hs, cfg.h, cfg.depth, Fields(hs, inputs[1 := free]), w.(leafIndex := index), o);
    proof :| cfg.verify(VkId.Swap, proof, [root, free, encOrderHash, s.amm.commPk]) == Ok(true);
    assert OrderSafety.IsNullifierOf(hs, free, NoteOf(hs, w), w.ownerSk, index);
  }

  // ---- a run --------------------------------------------------------------------------------------

  /** Two loans and two orders, each claiming another index of the same note. */
  function Run(hs: Hashes, h: Hash2): seq<Call> {
    Setup(hs) + [BorrowCall(hs, h, NullifierOf(hs, 0), 0), BorrowCall(hs, h, NullifierOf(hs, 1), 1),
                 SubmitCall(hs, h, NullifierOf(hs, 2)), SubmitCall(hs, h, NullifierOf(hs, 3))]
  }

  function AfterLoans(hs: Hashes): Sys {
    WithLoan(hs, WithLoan(hs, Ready(hs, 2), NullifierOf(hs, 0), 0), NullifierOf(hs, 1), 1)
  }

  lemma FirstLoanOpens(hs: Hashes, h: Hash2)
    requires RootIsRead(hs, h)
    ensures At(Deployment(hs, h, 2, false), Start(2), Run(hs, h), 6)
            == WithLoan(hs, Ready(hs, 2), NullifierOf(hs, 0), 0)
  {
    SetupRuns(Deployment(hs, h, 2, false), hs, 2);
    assert Run(hs, h)[..5] == Setup(hs);
    LoanOpens(hs, h, 2, false, Ready(hs, 2), NullifierOf(hs, 0), 0, 0);
    AtStep(Deployment(hs, h, 2, false), Start(2), Run(hs, h), 5);
  }

  lemma SecondLoanOpens(hs: Hashes, h: Hash2)
    requires Binding(hs) && RootIsRead(hs, h)
    ensures Next(Deployment(hs, h, 2, false), WithLoan(hs, Ready(hs, 2), NullifierOf(hs, 0), 0),
                 BorrowCall(hs, h, NullifierOf(hs, 1), 1))
            == AfterLoans(hs)
  {
    NullifiersDiffer(hs, 0, 1);
    LoanOpens(hs, h, 2, false, WithLoan(hs, Ready(hs, 2), NullifierOf(hs, 0), 0), NullifierOf(hs, 1), 1, 1);
  }

  lemma LoansOpen(hs: Hashes, h: Hash2)
    requires Binding(hs) && RootIsRead(hs, h)
    ensures At(Deployment(hs, h, 2, false), Start(2), Run(hs, h), 7) == AfterLoans(hs)
  {
    FirstLoanOpens(hs, h);
    SecondLoanOpens(hs, h);
    StepsTo(Deployment(hs, h, 2, false), Start(2), Run(hs, h), 6, BorrowCall(hs, h, NullifierOf(hs, 1), 1),
            AfterLoans(hs));
  }

  lemma AfterLoansState(hs: Hashes)
    ensures AfterLoans(hs).core.leaves
            == [HoldingLeaf(hs), Leaf(NoteCm(hs, Borrowed(hs, 0)), [1]), Leaf(NoteCm(hs, Borrowed(hs, 1)), [1])]
    ensures AfterLoans(hs).core.locked == {NullifierOf(hs, 0), NullifierOf(hs, 1)} && AfterLoans(hs).core.spent == {}
    ensures AfterLoans(hs).lend.loans
            == map[0 := LoanRecord(hs, NullifierOf(hs, 0), 0), 1 := LoanRecord(hs, NullifierOf(hs, 1), 1)]
    ensures AfterLoans(hs).amm == Ready(hs, 2).amm && AfterLoans(hs).core.modules == Modules()
  {}

  lemma FirstOrderIsTaken(hs: Hashes, h: Hash2)
    requires Binding(hs) && RootIsRead(hs, h)
    ensures TakeSlot(AfterLoans(hs).amm, 0, SaleRecord(hs, NullifierOf(hs, 2))).Ok?
    ensures At(Deployment(hs, h, 2, false), Start(2), Run(hs, h), 8)
            == WithOrder(hs, AfterLoans(hs), NullifierOf(hs, 2))
  {
    LoansOpen(hs, h);
    AfterLoansState(hs);
    NullifiersDiffer(hs, 2, 0);
    NullifiersDiffer(hs, 2, 1);
    OrderIsTaken(hs, h, 2, false, AfterLoans(hs), NullifierOf(hs, 2), 2);
    AtStep(Deployment(hs, h, 2, false), Start(2), Run(hs, h), 7);
  }

  lemma AfterFirstOrder(hs: Hashes)
    ensures TakeSlot(AfterLoans(hs).amm, 0, SaleRecord(hs, NullifierOf(hs, 2))).Ok?
    ensures var t, loans := WithOrder(hs, AfterLoans(hs), NullifierOf(hs, 2)), AfterLoans(hs);
            && t.lend == loans.lend && t.core == loans.core.(spent := {NullifierOf(hs, 2)})
            && t.amm.orders == map[(0, 0) := SaleRecord(hs, NullifierOf(hs, 2))] && t.amm.counts == map[0 := 1]
            && t.amm.batchSeq == 0 && t.amm.k == 2 && t.amm.addr == 1 && t.amm.commPk == 0
  {
    AfterLoansState(hs);
    assert AfterLoans(hs).core.spent + {NullifierOf(hs, 2)} == {NullifierOf(hs, 2)};
  }

  lemma SecondOrderIsTaken(hs: Hashes, h: Hash2, s: Sys)
    requires Binding(hs) && RootIsRead(hs, h)
    requires s.core == AfterLoans(hs).core.(spent := {NullifierOf(hs, 2)})
    requires s.amm.counts == map[0 := 1] && s.amm.batchSeq == 0 && s.amm.k == 2 && s.amm.addr == 1 && s.amm.commPk == 0
    ensures var t := Next(Deployment(hs, h, 2, false), s, SubmitCall(hs, h, NullifierOf(hs, 3)));
            && t.lend == s.lend && t.core.leaves == s.core.leaves
            && t.amm.orders == s.amm.orders[(0, 1) := SaleRecord(hs, NullifierOf(hs, 3))]
  {
    AfterLoansState(hs);
    NullifiersDiffer(hs, 3, 0);
    NullifiersDiffer(hs, 3, 1);
    NullifiersDiffer(hs, 3, 2);
    OrderIsTaken(hs, h, 2, false, s, NullifierOf(hs, 3), 3);
  }

  lemma AllAreClaimed(hs: Hashes, h: Hash2)
    requires Binding(hs) && RootIsRead(hs, h)
    ensures var t := After(Deployment(hs, h, 2, false), Start(2), Run(hs, h));
            && t.lend == AfterLoans(hs).lend && t.core.leaves == AfterLoans(hs).core.leaves
            && t.amm.orders == map[(0, 0) := SaleRecord(hs, NullifierOf(hs, 2)),
                                   (0, 1) := SaleRecord(hs, NullifierOf(hs, 3))]
  {
    FirstOrderIsTaken(hs, h);
    AfterFirstOrder(hs);
    SecondOrderIsTaken(hs, h, WithOrder(hs, AfterLoans(hs), NullifierOf(hs, 2)));
    AtStep(Deployment(hs, h, 2, false), Start(2), Run(hs, h), 8);
  }

  lemma RunIsPermitted(hs: Hashes, h: Hash2)
    ensures IsInitial(Start(2)) && AllPermitted(Start(2), Run(hs, h))
  {
    SetupIsPermitted(hs, 2);
  }

  lemma OnlyLeafOfHolding(hs: Hashes, i: nat)
    requires Binding(hs) && Reads(hs) && IsLeaf(hs, AfterLoans(hs).core.leaves, i, NoteCm(hs, Holding(hs)))
    ensures i == 0
  {
    AfterLoansState(hs);
    assert Borrowed(hs, 0).amount != Holding(hs).amount && Borrowed(hs, 1).amount != Holding(hs).amount;
  }

  /** The claim's nullifier is one of the note's. */
  predicate ClaimsHolding(hs: Hashes, nf: nat, index: nat) {
    OrderSafety.IsNullifierOf(hs, nf, Holding(hs), 7, index)
  }

  lemma HoldingIsOneLeaf(hs: Hashes)
    requires Binding(hs) && Reads(hs)
    ensures forall i :: IsLeaf(hs, AfterLoans(hs).core.leaves, i, NoteCm(hs, Holding(hs))) ==> i == 0
  {
    forall i: nat | IsLeaf(hs, AfterLoans(hs).core.leaves, i, NoteCm(hs, Holding(hs)))
      ensures i == 0
    {
      OnlyLeafOfHolding(hs, i);
    }
  }

  lemma NullifiersClaimHolding(hs: Hashes)
    requires Reads(hs)
    ensures forall index: nat :: ClaimsHolding(hs, NullifierOf(hs, index), index)
  {}

  /** Two open loans and two stored orders of the state, and what they claim. */
  predicate FourClaims(hs: Hashes, t: Sys) {
    && IsOpen(t.lend, 0) && ClaimsHolding(hs, t.lend.loans[0].collatNf, 0)
    && IsOpen(t.lend, 1) && ClaimsHolding(hs, t.lend.loans[1].collatNf, 1)
    && (0, 0) in t.amm.orders && ClaimsHolding(hs, t.amm.orders[(0, 0)].nfIn, 2)
    && (0, 1) in t.amm.orders && ClaimsHolding(hs, t.amm.orders[(0, 1)].nfIn, 3)
    && t.lend.loans[0].borrowCm == NoteCm(hs, Borrowed(hs, 0))
    && t.lend.loans[1].borrowCm == NoteCm(hs, Borrowed(hs, 1))
  }

  lemma AllClaimHolding(hs: Hashes, h: Hash2)
    requires Binding(hs) && RootIsRead(hs, h)
    ensures var t := After(Deployment(hs, h, 2, false), Start(2), Run(hs, h));
            FourClaims(hs, t) && t.core.leaves == AfterLoans(hs).core.leaves
  {
    AllAreClaimed(hs, h);
    AfterLoansState(hs);
    NullifiersClaimHolding(hs);
  }

  /**
   * Whatever binding hashes are used, and with a verifier that accepts exactly what the circuits prove, a permitted run
   * ends with two open loans, each at the full ratio, and two stored orders, all on the one note at leaf 0.
   */
  lemma OneNoteIsClaimedFourTimes(hs: Hashes, h: Hash2)
    requires Binding(hs) && Reads(hs) && BindingTree(hs.read, h)
    ensures var cfg := Deployment(hs, h, 2, false);
            && BindingTrees(cfg, hs) && SoundVerifier(cfg, hs, 2, false)
            && IsInitial(Start(2)) && AllPermitted(Start(2), Run(hs, h))
    ensures var t := After(Deployment(hs, h, 2, false), Start(2), Run(hs, h));
            && FourClaims(hs, t)
            && forall i :: IsLeaf(hs, t.core.leaves, i, NoteCm(hs, Holding(hs))) ==> i == 0
  {
    VerifierIsSound(hs, h, 2, false);
    DeploymentBinds(hs, h, 2, false);
    RunIsPermitted(hs, h);
    AllClaimHolding(hs, h);
    HoldingIsOneLeaf(hs);
  }
}
