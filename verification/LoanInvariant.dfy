/** What every lending call keeps: LOCKED is the collateral of the open loans. */
module LoanInvariant {
  import opened Words
  import opened CoreState
  import opened LendState

  predicate IsOpen(lend: Lend, id: nat) {
    id in lend.loans && !lend.loans[id].closed
  }

  function OpenCollateral(lend: Lend): set<nat> {
    set id | id in lend.loans && !lend.loans[id].closed :: lend.loans[id].collatNf
  }

  predicate IsCollateralOf(lend: Lend, id: nat, nf: nat) {
    IsOpen(lend, id) && lend.loans[id].collatNf == nf
  }

  ghost predicate IsCollateral(lend: Lend, nf: nat) {
    exists id :: IsCollateralOf(lend, id, nf)
  }

  lemma CollateralIsOfSomeLoan(lend: Lend, nf: nat)
    ensures nf in OpenCollateral(lend) <==> IsCollateral(lend, nf)
  {
    if nf in OpenCollateral(lend) {
      var id :| id in lend.loans && !lend.loans[id].closed && lend.loans[id].collatNf == nf;
      assert IsCollateralOf(lend, id, nf);
    }
  }

  ghost predicate DistinctOpen(lend: Lend) {
    forall nf, i, j :: IsCollateralOf(lend, i, nf) && IsCollateralOf(lend, j, nf) ==> i == j
  }

  /** The recorded ids are those below the counter. */
  ghost predicate IdsBelow(lend: Lend) {
    forall id: nat :: id in lend.loans <==> id < lend.loanSeq
  }

  /** LOCKED is exactly the collateral of open loans, each loan has its own, and none of it is spent. */
  ghost predicate LendInv(core: Core, lend: Lend) {
    && IdsBelow(lend)
    && core.locked == OpenCollateral(lend)
    && DistinctOpen(lend)
    && Disjoint(core)
  }

  lemma OpenAdded(lend: Lend, id: nat, rec: LoanRec)
    requires DistinctOpen(lend) && id !in lend.loans && !rec.closed && rec.collatNf !in OpenCollateral(lend)
    ensures var after := lend.(loans := lend.loans[id := rec], loanSeq := id + 1);
            OpenCollateral(after) == OpenCollateral(lend) + {rec.collatNf} && DistinctOpen(after)
  {
    var after := lend.(loans := lend.loans[id := rec], loanSeq := id + 1);
    forall i: nat, nf: nat
      ensures IsCollateralOf(after, i, nf) == (IsCollateralOf(lend, i, nf) || (i == id && nf == rec.collatNf))
    {}
    assert IsCollateralOf(after, id, rec.collatNf);
    CollateralIsOfSomeLoan(lend, rec.collatNf);
    forall nf: nat
      ensures nf in OpenCollateral(after) <==> nf in OpenCollateral(lend) || nf == rec.collatNf
    {
      CollateralIsOfSomeLoan(lend, nf);
      CollateralIsOfSomeLoan(after, nf);
    }
  }

  lemma OpenClosed(lend: Lend, id: nat)
    requires DistinctOpen(lend) && IsOpen(lend, id)
    ensures OpenCollateral(Close(lend, id)) == OpenCollateral(lend) - {lend.loans[id].collatNf}
    ensures DistinctOpen(Close(lend, id))
    ensures lend.loans[id].collatNf in OpenCollateral(lend)
  {
    var after := Close(lend, id);
    assert IsCollateralOf(lend, id, lend.loans[id].collatNf);
    forall i: nat, nf: nat
      ensures IsCollateralOf(after, i, nf) == (IsCollateralOf(lend, i, nf) && i != id)
    {}
    forall nf: nat
      ensures nf in OpenCollateral(after) <==> nf in OpenCollateral(lend) && nf != lend.loans[id].collatNf
    {
      CollateralIsOfSomeLoan(lend, nf);
      CollateralIsOfSomeLoan(after, nf);
    }
  }

  // ---- the entry points keep it ------------------------------------------------------------

  function OpenedWorld(w: LendWorld, rec: LoanRec, ct: Bytes): LendWorld {
    LendWorld(w.core.(locked := w.core.locked + {rec.collatNf}, leaves := w.core.leaves + [Leaf(rec.borrowCm, ct)]),
              w.lend.(loans := w.lend.loans[w.lend.loanSeq := rec], loanSeq := w.lend.loanSeq + 1))
  }

  /** What an opened loan rests on, and what it does to LOCKED, to the leaves and to the records. */
  lemma OpenLoanEffect(cfg: Config, w: LendWorld, feed: Feed, proof: Proof, collatNf: nat, borrowCm: nat, ct: Bytes,
                       collatAsset: Asset, borrowAsset: Asset, root: nat, claim: OracleClaim)
    requires OpenLoan(cfg, w, feed, proof, collatNf, borrowCm, ct, collatAsset, borrowAsset, root, claim).Ok?
    ensures RootIsKnown(cfg, w.core, root) && collatNf !in w.core.spent && collatNf !in w.core.locked
    ensures cfg.verify(VkId.Lend, proof, LendInputs(w.lend, root, collatNf, borrowCm, claim)) == Ok(true)
    ensures var rec := LoanRec(collatNf, borrowCm, claim.oraclePrice, claim.borrowPrice, w.lend.ltvBps, false);
            OpenLoan(cfg, w, feed, proof, collatNf, borrowCm, ct, collatAsset, borrowAsset, root, claim)
            == Ok((OpenedWorld(w, rec, ct), w.lend.loanSeq))
  {}

  lemma OpenLoanKeeps(cfg: Config, w: LendWorld, feed: Feed, proof: Proof, collatNf: nat, borrowCm: nat, ct: Bytes,
                      collatAsset: Asset, borrowAsset: Asset, root: nat, claim: OracleClaim)
    requires LendInv(w.core, w.lend)
    requires OpenLoan(cfg, w, feed, proof, collatNf, borrowCm, ct, collatAsset, borrowAsset, root, claim).Ok?
    ensures var t := OpenLoan(cfg, w, feed, proof, collatNf, borrowCm, ct, collatAsset, borrowAsset, root,
                              claim).value.0;
            LendInv(t.core, t.lend)
  {
    OpenLoanEffect(cfg, w, feed, proof, collatNf, borrowCm, ct, collatAsset, borrowAsset, root, claim);
    OpenAdded(w.lend, w.lend.loanSeq,
              LoanRec(collatNf, borrowCm, claim.oraclePrice, claim.borrowPrice, w.lend.ltvBps, false));
  }

  lemma RepayEffect(cfg: Config, w: LendWorld, proof: Proof, repayNf: nat, id: nat, root: nat)
    requires LendState.Repay(cfg, w, proof, repayNf, id, root).Ok?
    ensures IsOpen(w.lend, id) && repayNf !in w.core.spent && repayNf !in w.core.locked
    ensures cfg.verify(VkId.Repay, proof, [root, repayNf, w.lend.loans[id].borrowCm]) == Ok(true)
    ensures var nf := w.lend.loans[id].collatNf;
            LendState.Repay(cfg, w, proof, repayNf, id, root).value.0
            == LendWorld(w.core.(spent := w.core.spent + {repayNf}, locked := w.core.locked - {nf}), Close(w.lend, id))
  {}

  lemma RepayKeeps(cfg: Config, w: LendWorld, proof: Proof, repayNf: nat, id: nat, root: nat)
    requires LendInv(w.core, w.lend) && LendState.Repay(cfg, w, proof, repayNf, id, root).Ok?
    ensures var t := LendState.Repay(cfg, w, proof, repayNf, id, root).value.0;
            LendInv(t.core, t.lend)
  {
    RepayEffect(cfg, w, proof, repayNf, id, root);
    OpenClosed(w.lend, id);
  }

  lemma LiquidateEffect(w: LendWorld, feed: Feed, id: nat, asset: Asset)
    requires Liquidate(w, feed, id, asset).Ok?
    ensures IsOpen(w.lend, id)
    ensures var nf := w.lend.loans[id].collatNf;
            Liquidate(w, feed, id, asset).value.0
            == LendWorld(w.core.(spent := w.core.spent + {nf}, locked := w.core.locked - {nf}), Close(w.lend, id))
  {}

  lemma LiquidateKeeps(w: LendWorld, feed: Feed, id: nat, asset: Asset)
    requires LendInv(w.core, w.lend) && Liquidate(w, feed, id, asset).Ok?
    ensures var t := Liquidate(w, feed, id, asset).value.0;
            LendInv(t.core, t.lend)
  {
    LiquidateEffect(w, feed, id, asset);
    OpenClosed(w.lend, id);
  }

  /** On the collateral of an open loan, a seizure can only fail for want of a permission. */
  lemma SeizeSucceedsIff(core: Core, lend: Lend, id: nat)
    requires LendInv(core, lend) && IsOpen(lend, id)
    ensures Seize(core, lend.addr, lend.loans[id].collatNf).Ok?
            <==> HasPerm(core, lend.addr, PERM_LOCK) && HasPerm(core, lend.addr, PERM_SPEND)
  {
    OpenClosed(lend, id);
  }

  /** So with its permissions a liquidation never fails in the core. */
  lemma LiquidateNeverStrands(w: LendWorld, feed: Feed, id: nat, asset: Asset)
    ensures LendInv(w.core, w.lend) && HasPerm(w.core, w.lend.addr, PERM_LOCK)
            && HasPerm(w.core, w.lend.addr, PERM_SPEND)
            ==> Liquidate(w, feed, id, asset) != Err(CoreCallFailed)
  {
    if LendInv(w.core, w.lend) && IsOpen(w.lend, id) {
      SeizeSucceedsIff(w.core, w.lend, id);
    }
  }
}
