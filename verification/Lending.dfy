/** The lending contract over its storage, calling the core and rolled back by the host on an error. */
module Lending {
  import opened Words
  import opened CoreState
  import opened LendState
  import opened LoanInvariant
  import LendCircuit
  import VC = VeilCore

  class Lending {
    const core: VC.VeilCore
    const addr: Address
    const ltvBps: nat
    const staleness: nat
    var loanSeq: nat
    var loans: map<nat, LoanRec>

    constructor (core: VC.VeilCore, addr: Address, ltvBps: nat, staleness: nat)
      ensures core.Valid() ==> Valid()
      ensures core.locked == {} ==> Backing()
      ensures this.core == core && Save() == Lend.Lend(addr, ltvBps, staleness, 0, map[])
    {
      this.core, this.addr, this.ltvBps, this.staleness := core, addr, ltvBps, staleness;
      loanSeq, loans := 0, map[];
      new;
      assert OpenCollateral(Save()) == {};
    }

    function Save(): Lend
      reads this
    {
      Lend.Lend(addr, ltvBps, staleness, loanSeq, loans)
    }

    ghost function State(): LendWorld
      reads this, core
    {
      LendWorld(core.State(), Save())
    }

    /** The core is valid and the recorded loans have the ids below the counter. */
    ghost predicate Valid()
      reads this, core
    {
      core.Valid() && IdsBelow(Save())
    }

    /** The core's locked nullifiers are the collateral of the open loans. */
    ghost predicate Backing()
      reads this, core
    {
      LendInv(core.State(), Save())
    }

    /** The host's rollback of this call and its sub-calls. */
    method Rollback(coreSaved: VC.Storage, ghost coreLeaves: seq<Leaf>, saved: Lend)
      requires saved.addr == addr && saved.ltvBps == ltvBps && saved.staleness == staleness
      modifies this, core
      ensures core.Save() == coreSaved && core.leaves == coreLeaves && Save() == saved
    {
      core.Restore(coreSaved, coreLeaves);
      loanSeq, loans := saved.loanSeq, saved.loans;
    }

    method CoreVerify(vk: VkId, proof: Proof, inputs: seq<nat>) returns (r: Result<(), LendError>)
      ensures r == LendVerify(core.cfg, vk, proof, inputs)
    {
      var ok := core.cfg.verify(vk, proof, inputs);
      if ok.Err? || !ok.value {
        return Err(LendError.BadProof);
      }
      r := Ok(());
    }

    method OraclePriceInternal(feed: Feed, asset: Asset) returns (r: Result<I128, LendError>)
      ensures r == OraclePrice(Save(), feed, asset)
      ensures r.Ok? <==> feed.last(asset).Some? && feed.now <= feed.last(asset).value.timestamp + staleness
      ensures r.Ok? ==> IsFresh(Save(), feed, asset, r.value)
      ensures r.Err? ==> r.error == if feed.last(asset).None? then NoPrice else StaleOracle
    {
      var maybePrice := feed.last(asset);
      if maybePrice.None? {
        return Err(NoPrice);
      }
      var age := 0;
      if feed.now > maybePrice.value.timestamp {
        age := feed.now - maybePrice.value.timestamp;
      }
      if age > staleness {
        return Err(StaleOracle);
      }
      r := Ok(maybePrice.value.price);
    }

    method CoreLock(nf: nat) returns (r: Result<(), LendError>)
      requires core.Valid()
      modifies core
      ensures core.Valid() && Outcome(LendCall(Lock(old(core.State()), addr, nf)), old(core.State()), r, core.State())
    {
      var s := core.Lock(addr, nf);
      r := LendCall(s);
    }

    method CoreUnlock(nf: nat) returns (r: Result<(), LendError>)
      requires core.Valid()
      modifies core
      ensures core.Valid() && Outcome(LendCall(Unlock(old(core.State()), addr, nf)), old(core.State()), r, core.State())
    {
      var s := core.Unlock(addr, nf);
      r := LendCall(s);
    }

    method CoreSpend(nf: nat) returns (r: Result<(), LendError>)
      requires core.Valid()
      modifies core
      ensures core.Valid() && Outcome(LendCall(Spend(old(core.State()), addr, nf)), old(core.State()), r, core.State())
    {
      var s := core.Spend(addr, nf);
      r := LendCall(s);
    }

    method CoreInsert(cm: nat, ct: Bytes) returns (r: Result<nat, LendError>)
      requires core.Valid()
      modifies core
      ensures core.Valid()
      ensures Outcome(LendCall(InsertCommitment(core.cfg, old(core.State()), addr, cm, ct)), old(core.State()), r,
                      core.State())
    {
      var i := core.InsertCommitment(addr, cm, ct);
      r := LendCall(i);
    }

    // ---- open_loan ---------------------------------------------------------------------------

    method CheckLoan(feed: Feed, proof: Proof, collatNf: nat, borrowCm: nat, ct: Bytes, collatAsset: Asset,
                     borrowAsset: Asset, root: nat, claim: OracleClaim) returns (r: Result<(I128, I128), LendError>)
      requires core.Valid()
      ensures r == LendState.CheckLoan(core.cfg, State(), feed, proof, collatNf, borrowCm, ct, collatAsset, borrowAsset,
                                       root, claim)
    {
      if |ct| == 0 {
        return Err(LendError.MissingAuditorCt);
      }
      var known := core.RootIsKnown(root);
      if !known {
        return Err(LendError.UnknownRoot);
      }
      var collatPrice :- OraclePriceInternal(feed, collatAsset);
      var borrowPrice :- OraclePriceInternal(feed, borrowAsset);
      if collatPrice != claim.oraclePrice {
        return Err(OracleMismatch);
      }
      if borrowPrice != claim.borrowPrice {
        return Err(OracleMismatch);
      }
      var inputs := [root, collatNf, borrowCm, LendCircuit.I128AsField(claim.oraclePrice), claim.oracleDecimals, ltvBps,
                     LendCircuit.I128AsField(claim.borrowPrice)];
      var _ :- CoreVerify(VkId.Lend, proof, inputs);
      r := Ok((collatPrice, borrowPrice));
    }

    method OpenLoanBody(feed: Feed, proof: Proof, collatNf: nat, borrowCm: nat, ct: Bytes, collatAsset: Asset,
                        borrowAsset: Asset, root: nat, claim: OracleClaim) returns (r: Result<nat, LendError>)
      requires core.Valid()
      modifies this, core
      ensures core.Valid()
      ensures Partial(LendState.OpenLoan(core.cfg, old(State()), feed, proof, collatNf, borrowCm, ct, collatAsset,
                                         borrowAsset, root, claim), r, State())
    {
      var prices :- CheckLoan(feed, proof, collatNf, borrowCm, ct, collatAsset, borrowAsset, root, claim);
      var _ :- CoreLock(collatNf);
      var _ :- CoreInsert(borrowCm, ct);
      var loanId := loanSeq;
      loans := loans[loanId := LoanRec(collatNf, borrowCm, prices.0, prices.1, ltvBps, false)];
      loanSeq := loanId + 1;
      r := Ok(loanId);
    }

    method OpenLoan(feed: Feed, proof: Proof, collatNf: nat, borrowCm: nat, ct: Bytes, collatAsset: Asset,
                    borrowAsset: Asset, root: nat, claim: OracleClaim) returns (r: Result<nat, LendError>)
      requires Valid()
      modifies this, core
      ensures Valid()
      ensures Outcome(LendState.OpenLoan(core.cfg, old(State()), feed, proof, collatNf, borrowCm, ct, collatAsset,
                                         borrowAsset, root, claim),
                      old(State()), r, State())
      ensures old(Backing()) ==> Backing()
    {
      var coreSaved, saved := core.Save(), Save();
      ghost var coreLeaves, before := core.leaves, State();
      r := OpenLoanBody(feed, proof, collatNf, borrowCm, ct, collatAsset, borrowAsset, root, claim);
      if r.Err? {
        Rollback(coreSaved, coreLeaves, saved);
      } else if LendInv(before.core, before.lend) {
        OpenLoanKeeps(core.cfg, before, feed, proof, collatNf, borrowCm, ct, collatAsset, borrowAsset, root, claim);
      }
    }

    // ---- repay ---------------------------------------------------------------------------------

    method RepayBody(proof: Proof, repayNf: nat, loanId: nat, root: nat) returns (r: Result<(), LendError>)
      requires core.Valid()
      modifies this, core
      ensures core.Valid() && Partial(LendState.Repay(core.cfg, old(State()), proof, repayNf, loanId, root), r, State())
    {
      if loanId !in loans {
        return Err(LoanNotFound);
      }
      var rec := loans[loanId];
      if rec.closed {
        return Err(AlreadyClosed);
      }
      var known := core.RootIsKnown(root);
      if !known {
        return Err(LendError.UnknownRoot);
      }
      var _ :- CoreVerify(VkId.Repay, proof, [root, repayNf, rec.borrowCm]);
      var _ :- CoreSpend(repayNf);
      var _ :- CoreUnlock(rec.collatNf);
      loans := loans[loanId := rec.(closed := true)];
      r := Ok(());
    }

    method Repay(proof: Proof, repayNf: nat, loanId: nat, root: nat) returns (r: Result<(), LendError>)
      requires Valid()
      modifies this, core
      ensures Valid()
              && Outcome(LendState.Repay(core.cfg, old(State()), proof, repayNf, loanId, root), old(State()), r,
                         State())
      ensures old(Backing()) ==> Backing()
    {
      var coreSaved, saved := core.Save(), Save();
      ghost var coreLeaves, before := core.leaves, State();
      r := RepayBody(proof, repayNf, loanId, root);
      if r.Err? {
        Rollback(coreSaved, coreLeaves, saved);
      } else if LendInv(before.core, before.lend) {
        RepayKeeps(core.cfg, before, proof, repayNf, loanId, root);
      }
    }

    // ---- liquidate -------------------------------------------------------------------------------

    method LiquidateBody(feed: Feed, loanId: nat, asset: Asset) returns (r: Result<(), LendError>)
      requires core.Valid()
      modifies this, core
      ensures core.Valid() && Partial(LendState.Liquidate(old(State()), feed, loanId, asset), r, State())
    {
      if loanId !in loans {
        return Err(LoanNotFound);
      }
      var rec := loans[loanId];
      if rec.closed {
        return Err(AlreadyClosed);
      }
      var price :- OraclePriceInternal(feed, asset);
      var lhs: int := (price as int) * 10000;
      if !IsI128(lhs) {
        return Err(Overflow);
      }
      var rhs: int := rec.openOraclePrice * rec.ltvMaxBps;
      if !IsI128(rhs) {
        return Err(Overflow);
      }
      if lhs >= rhs {
        return Err(Healthy);
      }
      var _ :- CoreUnlock(rec.collatNf);
      var _ :- CoreSpend(rec.collatNf);
      loans := loans[loanId := rec.(closed := true)];
      r := Ok(());
    }

    method Liquidate(feed: Feed, loanId: nat, asset: Asset) returns (r: Result<(), LendError>)
      requires Valid()
      modifies this, core
      ensures Valid() && Outcome(LendState.Liquidate(old(State()), feed, loanId, asset), old(State()), r, State())
      ensures old(Backing()) ==> Backing()
      ensures old(Backing() && HasPerm(core.State(), addr, PERM_LOCK) && HasPerm(core.State(), addr, PERM_SPEND)) ==>
                r != Err(CoreCallFailed)
    {
      var coreSaved, saved := core.Save(), Save();
      ghost var coreLeaves, before := core.leaves, State();
      r := LiquidateBody(feed, loanId, asset);
      LiquidateNeverStrands(before, feed, loanId, asset);
      if r.Err? {
        Rollback(coreSaved, coreLeaves, saved);
      } else if LendInv(before.core, before.lend) {
        LiquidateKeeps(before, feed, loanId, asset);
      }
    }
  }
}
