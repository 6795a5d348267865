/** What follows when the verifier reads different numbers as one field element, which SPENT and LOCKED keep apart. */
module Aliases {
  import opened Words
  import opened Field
  import opened Notes
  import opened Membership
  import opened CoreState
  import opened AmmState
  import opened LendState
  import opened LoanInvariant
  import opened System
  import opened LeafSafety
  import opened SmallDeployment

  /** The two numbers are read as one element and are not the same entry of a set. */
  predicate IsAlias(hs: Hashes, alias: nat, nf: nat) {
    alias != nf && hs.read(alias) == hs.read(nf)
  }

  predicate IsFree(core: Core, nf: nat) {
    nf !in core.spent && nf !in core.locked
  }

  // ---- in every state --------------------------------------------------------------------------

  /** The verifier sees of its inputs only what they are read as. */
  ghost predicate ReadsInputs(cfg: Config, hs: Hashes) {
    forall vk, proof, inputs, others :: Fields(hs, inputs) == Fields(hs, others) ==>
                                          cfg.verify(vk, proof, inputs) == cfg.verify(vk, proof, others)
  }

  lemma AliasVerifies(cfg: Config, hs: Hashes, vk: VkId, proof: Proof, inputs: seq<nat>, i: nat, alias: nat)
    requires ReadsInputs(cfg, hs) && i < |inputs| && hs.read(alias) == hs.read(inputs[i])
    ensures cfg.verify(vk, proof, inputs[i := alias]) == cfg.verify(vk, proof, inputs)
  {
    assert Fields(hs, inputs[i := alias]) == Fields(hs, inputs);
  }

  /** A loan that opens under one nullifier opens with the same proof under every alias of it that is free. */
  lemma AliasOpensLoan(cfg: Config, hs: Hashes, w: LendWorld, feed: Feed, proof: Proof, nf: nat, borrowCm: nat,
                       ct: Bytes, collatAsset: Asset, borrowAsset: Asset, root: nat, claim: OracleClaim, alias: nat)
    requires ReadsInputs(cfg, hs) && IsAlias(hs, alias, nf) && IsFree(w.core, alias)
    requires OpenLoan(cfg, w, feed, proof, nf, borrowCm, ct, collatAsset, borrowAsset, root, claim).Ok?
    ensures OpenLoan(cfg, w, feed, proof, alias, borrowCm, ct, collatAsset, borrowAsset, root, claim).Ok?
  {
    var inputs := LendInputs(w.lend, root, nf, borrowCm, claim);
    AliasVerifies(cfg, hs, VkId.Lend, proof, inputs, 1, alias);
    assert inputs[1 := alias] == LendInputs(w.lend, root, alias, borrowCm, claim);
  }

  lemma AliasIsTaken(cfg: Config, hs: Hashes, w: World, ledger: nat, submitter: Address, proof: Proof, encOrder: Bytes,
                     nf: nat, encOrderHash: nat, root: nat, alias: nat)
    requires ReadsInputs(cfg, hs) && IsAlias(hs, alias, nf) && IsFree(w.core, alias)
    requires SubmitOrder(cfg, w, ledger, submitter, proof, encOrder, nf, encOrderHash, root).Ok?
    ensures SubmitOrder(cfg, w, ledger, submitter, proof, encOrder, alias, encOrderHash, root).Ok?
  {
    var inputs := [root, nf, encOrderHash, w.amm.commPk];
    AliasVerifies(cfg, hs, VkId.Swap, proof, inputs, 1, alias);
    assert inputs[1 := alias] == [root, alias, encOrderHash, w.amm.commPk];
  }

  // ---- a run ---------------------------------------------------------------------------------------

  /** Two loans whose proofs both claim the index of the note's path, the second under an alias. */
  function Run(hs: Hashes, h: Hash2, alias: nat): seq<Call> {
    Setup(hs) + [BorrowCall(hs, h, NullifierOf(hs, 0), 0), BorrowCall(hs, h, alias, 1)]
  }

  function AfterLoans(hs: Hashes, alias: nat): Sys {
    WithLoan(hs, WithLoan(hs, Ready(hs, 1), NullifierOf(hs, 0), 0), alias, 1)
  }

  lemma FirstLoanOpens(hs: Hashes, h: Hash2, alias: nat)
    requires RootIsRead(hs, h)
    ensures At(Deployment(hs, h, 1, true), Start(1), Run(hs, h, alias), 6)
            == WithLoan(hs, Ready(hs, 1), NullifierOf(hs, 0), 0)
  {
    SetupRuns(Deployment(hs, h, 1, true), hs, 1);
    assert Run(hs, h, alias)[..5] == Setup(hs);
    LoanOpens(hs, h, 1, true, Ready(hs, 1), NullifierOf(hs, 0), 0, 0);
    AtStep(Deployment(hs, h, 1, true), Start(1), Run(hs, h, alias), 5);
  }

  lemma LoansOpen(hs: Hashes, h: Hash2, alias: nat)
    requires RootIsRead(hs, h) && IsAlias(hs, alias, NullifierOf(hs, 0))
    ensures After(Deployment(hs, h, 1, true), Start(1), Run(hs, h, alias)) == AfterLoans(hs, alias)
  {
    FirstLoanOpens(hs, h, alias);
    LoanOpens(hs, h, 1, true, WithLoan(hs, Ready(hs, 1), NullifierOf(hs, 0), 0), alias, 0, 1);
    AtStep(Deployment(hs, h, 1, true), Start(1), Run(hs, h, alias), 6);
  }

  lemma RunIsPermitted(hs: Hashes, h: Hash2, alias: nat)
    ensures IsInitial(Start(1)) && AllPermitted(Start(1), Run(hs, h, alias))
  {
    SetupIsPermitted(hs, 1);
  }

  lemma BothStandOnLeafZero(hs: Hashes, alias: nat)
    requires Reads(hs) && IsAlias(hs, alias, NullifierOf(hs, 0))
    ensures var t := AfterLoans(hs, alias);
            && IsOpen(t.lend, 0) && t.lend.loans[0].collatNf == NullifierOf(hs, 0)
            && IsOpen(t.lend, 1) && t.lend.loans[1].collatNf == alias
            && StandsOn(hs, t.core.leaves, NullifierOf(hs, 0), 0) && StandsOn(hs, t.core.leaves, alias, 0)
  {
    var leaves := AfterLoans(hs, alias).core.leaves;
    assert leaves[0] == HoldingLeaf(hs);
    assert IsNullifierAt(hs, leaves, 0, NullifierOf(hs, 0), Holding(hs), 7);
    assert IsNullifierAt(hs, leaves, 0, alias, Holding(hs), 7);
  }

  /**
   * Constraining the index is not enough. With a verifier that accepts exactly what the circuits with that constraint
   * prove, an alias of a note's nullifier opens a second loan on the note, which stands on the same leaf.
   */
  lemma AliasBacksASecondLoan(hs: Hashes, h: Hash2, alias: nat)
    requires RootIsRead(hs, h) && IsAlias(hs, alias, NullifierOf(hs, 0))
    ensures var cfg := Deployment(hs, h, 1, true);
            && SoundVerifier(cfg, hs, 1, true) && (Binding(hs) && BindingTree(hs.read, h) ==> BindingTrees(cfg, hs))
            && IsInitial(Start(1)) && AllPermitted(Start(1), Run(hs, h, alias))
    ensures var t := After(Deployment(hs, h, 1, true), Start(1), Run(hs, h, alias));
            && IsOpen(t.lend, 0) && IsOpen(t.lend, 1) && t.lend.loans[0].collatNf != t.lend.loans[1].collatNf
            && StandsOn(hs, t.core.leaves, t.lend.loans[0].collatNf, 0)
            && StandsOn(hs, t.core.leaves, t.lend.loans[1].collatNf, 0)
  {
    VerifierIsSound(hs, h, 1, true);
    if Binding(hs) && BindingTree(hs.read, h) {
      DeploymentBinds(hs, h, 1, true);
    }
    RunIsPermitted(hs, h, alias);
    LoansOpen(hs, h, alias);
    BothStandOnLeafZero(hs, alias);
  }

  /** If the verifier reduces its inputs modulo the order, a nullifier has the alias that exceeds it by the order. */
  lemma ReductionHasAliases(hs: Hashes, nf: nat)
    requires (forall x: nat :: hs.read(x) == Red(x)) && hs.read(nf) == nf
    ensures IsAlias(hs, nf + P, nf)
  {
    QuotientUnique(nf + P, 1, nf);
  }
}
