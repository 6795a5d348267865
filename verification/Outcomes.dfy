/** When each entry point succeeds, and the whole state it leaves, in closed form. */
module Outcomes {
  import opened Words
  import opened CoreState
  import opened AmmState
  import opened LendState
  import opened System
  import BatchInvariant
  import BatchSafety
  import LoanInvariant
  import LoanSafety
  import LendCircuit

  /** The nullifier 0 stands for no note. */
  predicate Spendable(core: Core, nf: nat) {
    nf == 0 || (nf !in core.spent && nf !in core.locked)
  }

  predicate BothSpendable(core: Core, nf0: nat, nf1: nat) {
    Spendable(core, nf0) && Spendable(core, nf1) && (nf0 == nf1 ==> nf0 == 0)
  }

  /** The leaf of an optional output. */
  function OutputLeaf(cm: nat, ct: Bytes): seq<Leaf> {
    if cm == 0 then [] else [Leaf(cm, ct)]
  }

  predicate HasRoom(cfg: Config, core: Core, more: seq<Leaf>) {
    more == [] || |core.leaves| + |more| <= Pow2(cfg.depth)
  }

  predicate Insertable(cfg: Config, core: Core, more: seq<Leaf>) {
    HaveCts(more) && HasRoom(cfg, core, more)
  }

  /** Nullifiers are spent and leaves appended; nothing else changes. */
  function Moved(core: Core, nfs: set<nat>, more: seq<Leaf>): Core {
    core.(spent := core.spent + (nfs - {0}), leaves := core.leaves + more)
  }

  /** The indices of the appended leaves, in order. */
  predicate AreNextIndices(core: Core, more: seq<Leaf>, idx: seq<nat>) {
    |idx| == |more| && forall i :: 0 <= i < |idx| ==> idx[i] == |core.leaves| + i
  }

  // ---- permissions -----------------------------------------------------------------------------

  /** Registering bits 1, 2 and 4 grants insertion, spending and locking, each alone, and nobody else has any. */
  lemma BitsGrantOperations(cfg: Config, core: Core, caller: Address, cm: nat, ct: Bytes, nf: nat)
    ensures var bits := if caller in core.modules then core.modules[caller] else 0;
            && (InsertCommitment(cfg, core, caller, cm, ct) == Err(Unauthorized) <==> bits & 1 == 0)
            && (Spend(core, caller, nf) == Err(Unauthorized) <==> bits & 2 == 0)
            && (Lock(core, caller, nf) == Err(Unauthorized) <==> bits & 4 == 0)
            && (Unlock(core, caller, nf) == Err(Unauthorized) <==> bits & 4 == 0)
  {}

  lemma OneBitGrantsOneOperation(cfg: Config, core: Core, target: Address, cm: nat, ct: Bytes, nf: nat)
    ensures var c := core.(modules := core.modules[target := 1]);
            && InsertCommitment(cfg, c, target, cm, ct) != Err(Unauthorized)
            && Spend(c, target, nf) == Err(Unauthorized)
            && Lock(c, target, nf) == Unlock(c, target, nf) == Err(Unauthorized)
    ensures var c := core.(modules := core.modules[target := 2]);
            && Spend(c, target, nf) != Err(Unauthorized)
            && InsertCommitment(cfg, c, target, cm, ct) == Err(Unauthorized)
            && Lock(c, target, nf) == Unlock(c, target, nf) == Err(Unauthorized)
    ensures var c := core.(modules := core.modules[target := 4]);
            && Lock(c, target, nf) != Err(Unauthorized) && Unlock(c, target, nf) != Err(Unauthorized)
            && InsertCommitment(cfg, c, target, cm, ct) == Err(Unauthorized)
            && Spend(c, target, nf) == Err(Unauthorized)
  {
    assert 1 as bv32 & 2 == 0 && 1 as bv32 & 4 == 0 && 2 as bv32 & 1 == 0 && 2 as bv32 & 4 == 0
           && 4 as bv32 & 1 == 0 && 4 as bv32 & 2 == 0 && 1 as bv32 & 1 == 1 && 2 as bv32 & 2 == 2
           && 4 as bv32 & 4 == 4;
  }

  // ---- the core --------------------------------------------------------------------------------

  lemma TwoSpends(core: Core, nf0: nat, nf1: nat)
    ensures var r0 := CoreState.SpendIfSet(core, nf0);
            var ok := r0.Ok? && CoreState.SpendIfSet(r0.value.0, nf1).Ok?;
            && (ok <==> BothSpendable(core, nf0, nf1))
            && (ok ==> CoreState.SpendIfSet(r0.value.0, nf1).value.0 == Moved(core, {nf0, nf1}, []))
  {
    assert {nf0, nf1} - {0} == ({nf0} - {0}) + ({nf1} - {0});
  }

  lemma TwoInserts(cfg: Config, core: Core, cm0: nat, ct0: Bytes, cm1: nat, ct1: Bytes)
    ensures var more := OutputLeaf(cm0, ct0) + OutputLeaf(cm1, ct1);
            var r0 := CoreState.InsertIfSet(cfg, core, cm0, ct0);
            var ok := r0.Ok? && CoreState.InsertIfSet(cfg, r0.value.0, cm1, ct1).Ok?;
            && (ok <==> Insertable(cfg, core, more))
            && (ok ==> CoreState.InsertIfSet(cfg, r0.value.0, cm1, ct1).value.0 == Moved(core, {}, more))
  {
    var more := OutputLeaf(cm0, ct0) + OutputLeaf(cm1, ct1);
    assert HaveCts(more) <==> (cm0 == 0 || ct0 != []) && (cm1 == 0 || ct1 != []) by {
      if cm0 != 0 {
        assert more[0] == Leaf(cm0, ct0);
      }
      if cm1 != 0 {
        assert more[|more| - 1] == Leaf(cm1, ct1);
      }
    }
    assert core.leaves + OutputLeaf(cm0, ct0) + OutputLeaf(cm1, ct1) == core.leaves + more;
  }

  /**
   * A deposit succeeds exactly when the contract it names accepts, the proof is accepted and the note can be stored.
   * The two provider roots in the public inputs are compared with nothing.
   */
  lemma DepositSucceedsIff(cfg: Config, core: Core, aspAccepts: bool, proof: Proof, pub: DepositPublic, ct: Bytes)
    ensures var r := DepositNote(cfg, core, aspAccepts, proof, pub, ct);
            && (r.Ok? <==> && aspAccepts && ct != [] && |core.leaves| < Pow2(cfg.depth)
                           && cfg.verify(VkId.Deposit, proof,
                                         [pub.cm, pub.publicAmount, pub.aspApprovedRoot, pub.aspBlockedRoot])
                              == Ok(true))
            && (r.Ok? ==> r.value == (Moved(core, {}, [Leaf(pub.cm, ct)]), |core.leaves|))
  {
    assert core.spent + ({} - {0}) == core.spent;
  }

  /**
   * A transfer succeeds exactly on a known root, a proof, two distinct unspent notes and storable outputs, and then
   * does just that.
   */
  lemma TransferSucceedsIff(cfg: Config, core: Core, proof: Proof, pub: TransferPublic, cts: seq<Bytes>)
    ensures var more := OutputLeaf(pub.cmOut0, CtAt(cts, 0)) + OutputLeaf(pub.cmOut1, CtAt(cts, 1));
            var r := TransferNotes(cfg, core, proof, pub, cts);
            && (r.Ok? <==> && pub.publicAmount == 0 && RootIsKnown(cfg, core, pub.root)
                           && cfg.verify(VkId.Transfer, proof,
                                         [pub.root, pub.nfIn0, pub.nfIn1, pub.cmOut0, pub.cmOut1, pub.publicAmount])
                              == Ok(true)
                           && BothSpendable(core, pub.nfIn0, pub.nfIn1) && Insertable(cfg, core, more))
            && (r.Ok? ==> r.value.0 == Moved(core, {pub.nfIn0, pub.nfIn1}, more)
                          && AreNextIndices(core, more, r.value.1))
  {
    TwoSpends(core, pub.nfIn0, pub.nfIn1);
    TwoInserts(cfg, Moved(core, {pub.nfIn0, pub.nfIn1}, []), pub.cmOut0, CtAt(cts, 0), pub.cmOut1, CtAt(cts, 1));
  }

  lemma WithdrawSucceedsIff(cfg: Config, core: Core, proof: Proof, pub: WithdrawPublic, ct: Bytes)
    ensures var more := OutputLeaf(pub.cmChange, ct);
            var r := WithdrawNotes(cfg, core, proof, pub, ct);
            && (r.Ok? <==> && pub.publicAmount != 0 && RootIsKnown(cfg, core, pub.root)
                           && cfg.verify(VkId.Withdraw, proof,
                                         [pub.root, pub.nfIn0, pub.nfIn1, pub.cmChange, pub.publicAmount, pub.assetId,
                                          pub.recipientHash]) == Ok(true)
                           && BothSpendable(core, pub.nfIn0, pub.nfIn1) && Insertable(cfg, core, more))
            && (r.Ok? ==> r.value.0 == Moved(core, {pub.nfIn0, pub.nfIn1}, more)
                          && AreNextIndices(core, more, r.value.1))
  {
    TwoSpends(core, pub.nfIn0, pub.nfIn1);
    TwoInserts(cfg, Moved(core, {pub.nfIn0, pub.nfIn1}, []), pub.cmChange, ct, 0, []);
    assert OutputLeaf(pub.cmChange, ct) + OutputLeaf(0, []) == OutputLeaf(pub.cmChange, ct);
  }

  // ---- the pool ----------------------------------------------------------------------------------

  /** The order is stored in the slot and counted; the first one sets the deadline, 100 ledgers on. */
  function WithOrder(amm: Amm, slot: nat, ledger: nat, rec: OrderRecord): Amm {
    amm.(orders := amm.orders[(amm.batchSeq, slot) := rec], counts := amm.counts[amm.batchSeq := slot + 1],
         deadlines := if slot == 0 then amm.deadlines[amm.batchSeq := ledger + 100] else amm.deadlines)
  }

  /** An order is accepted exactly when its note can be spent and the current batch has a free slot. */
  lemma SubmitSucceedsIff(cfg: Config, w: World, ledger: nat, submitter: Address, proof: Proof, encOrder: Bytes,
                          nfIn: nat, encOrderHash: nat, root: nat)
    ensures var count := OrderCount(w.amm, w.amm.batchSeq);
            var r := SubmitOrder(cfg, w, ledger, submitter, proof, encOrder, nfIn, encOrderHash, root);
            && (r.Ok? <==> && RootIsKnown(cfg, w.core, root)
                           && cfg.verify(VkId.Swap, proof, [root, nfIn, encOrderHash, w.amm.commPk]) == Ok(true)
                           && HasPerm(w.core, w.amm.addr, PERM_SPEND) && nfIn !in w.core.spent && nfIn !in w.core.locked
                           && count < w.amm.k && (count == 0 ==> ledger + 100 < TWO_32))
            && (r.Ok? ==> && r.value.1 == count && r.value.0.core == w.core.(spent := w.core.spent + {nfIn})
                          && r.value.0.amm == WithOrder(w.amm, count, ledger,
                                                        OrderRecord(encOrder, nfIn, encOrderHash, submitter)))
  {}

  lemma FullBatchIsStored(amm: Amm, batch: nat)
    requires BatchInvariant.SlotsFilled(amm) && OrderCount(amm, batch) >= amm.k
    ensures BatchStored(amm, batch)
  {}

  /**
   * A batch can be settled when it is the current one, full, and its K outputs can be stored with an accepted proof.
   */
  ghost predicate CanSettle(cfg: Config, w: World, batch: nat, proof: Proof, outputs: seq<Output>, postCm: nat) {
    && batch == w.amm.batchSeq && OrderCount(w.amm, batch) == |outputs| == w.amm.k && w.amm.reserves.Some?
    && HaveOutputCts(outputs)
    && (exists v :: IsSettleVector(w.amm, batch, outputs, w.amm.reserves.value.reserveCm, postCm, v)
                    && cfg.verify(VkId.BatchSettle, proof, v) == Ok(true))
    && (outputs == [] || (HasPerm(w.core, w.amm.addr, PERM_INSERT) && HasRoom(cfg, w.core, OutputLeaves(outputs))))
  }

  lemma SettleOnState(cfg: Config, w: World, batch: nat, proof: Proof, outputs: seq<Output>, postCm: nat,
                      postEnc: Bytes)
    requires batch in w.amm.settled <==> batch < w.amm.batchSeq
    requires OrderCount(w.amm, batch) <= w.amm.k
    requires OrderCount(w.amm, batch) >= w.amm.k ==> BatchStored(w.amm, batch)
    ensures var r := SettleBatch(cfg, w, batch, proof, outputs, postCm, postEnc);
            && r != Err(Trap)
            && (r.Ok? <==> CanSettle(cfg, w, batch, proof, outputs, postCm))
            && (r.Ok? ==> r.value.0 == SettledWorld(w, batch, outputs, postCm, postEnc))
  {
    InsertAllSucceedsIff(cfg, w.core, w.amm.addr, outputs);
    if |outputs| == w.amm.k && w.amm.reserves.Some? && BatchStored(w.amm, batch) {
      var preCm := w.amm.reserves.value.reserveCm;
      var u := SettleInputs(w.amm, batch, outputs, preCm, postCm);
      SettleInputsAre(w.amm, batch, outputs, preCm, postCm, u);
      forall v | IsSettleVector(w.amm, batch, outputs, preCm, postCm, v)
        ensures v == u
      {
        SettleInputsAre(w.amm, batch, outputs, preCm, postCm, v);
      }
    }
  }

  /** The outputs are appended, the batch is settled, the next one is current and the new reserves are stored. */
  function SettledWorld(w: World, batch: nat, outputs: seq<Output>, postCm: nat, postEnc: Bytes): World {
    World(w.core.(leaves := w.core.leaves + OutputLeaves(outputs)),
          w.amm.(settled := w.amm.settled + {batch}, batchSeq := batch + 1,
                 reserves := Some(EncReserves(postCm, postEnc))))
  }

  lemma ReachableBatch(cfg: Config, s: Sys, calls: seq<Call>, batch: nat)
    requires IsInitial(s)
    ensures var amm := After(cfg, s, calls).amm;
            && (batch in amm.settled <==> batch < amm.batchSeq) && OrderCount(amm, batch) <= amm.k
            && (OrderCount(amm, batch) >= amm.k ==> BatchStored(amm, batch))
  {
    BatchSafety.BatchesStayWellFormed(cfg, s, calls);
    var amm := After(cfg, s, calls).amm;
    if OrderCount(amm, batch) >= amm.k {
      FullBatchIsStored(amm, batch);
    }
  }

  /** In every reachable state a settlement succeeds exactly when CanSettle says so; it never meets a missing order. */
  lemma SettleSucceedsIff(cfg: Config, s: Sys, calls: seq<Call>, batch: nat, proof: Proof, outputs: seq<Output>,
                          postCm: nat, postEnc: Bytes)
    requires IsInitial(s)
    ensures var w := World(After(cfg, s, calls).core, After(cfg, s, calls).amm);
            var r := SettleBatch(cfg, w, batch, proof, outputs, postCm, postEnc);
            && r != Err(Trap)
            && (r.Ok? <==> CanSettle(cfg, w, batch, proof, outputs, postCm))
            && (r.Ok? ==> r.value.0 == SettledWorld(w, batch, outputs, postCm, postEnc))
  {
    ReachableBatch(cfg, s, calls, batch);
    SettleOnState(cfg, World(After(cfg, s, calls).core, After(cfg, s, calls).amm), batch, proof, outputs, postCm,
                  postEnc);
  }

  /**
   * In every reachable state a refund succeeds exactly for an unrefunded order of the current batch after its
   * deadline.
   */
  lemma RefundSucceedsIff(cfg: Config, s: Sys, calls: seq<Call>, ledger: nat, batch: nat, slot: nat, proof: Proof,
                          root: nat, cm: nat, ct: Bytes)
    requires IsInitial(s)
    ensures var t := After(cfg, s, calls);
            var r := RefundOrder(cfg, World(t.core, t.amm), ledger, batch, slot, proof, root, cm, ct);
            && (r.Ok? <==> && batch == t.amm.batchSeq && slot < OrderCount(t.amm, batch)
                           && (batch, slot) in t.amm.orders && (batch, slot) !in t.amm.refunded
                           && ledger > Deadline(t.amm, batch) && ct != [] && RootIsKnown(cfg, t.core, root)
                           && cfg.verify(VkId.SettleOrRefund, proof,
                                         [batch, t.amm.orders[(batch, slot)].nfIn, cm, root, Deadline(t.amm, batch)])
                              == Ok(true)
                           && HasPerm(t.core, t.amm.addr, PERM_INSERT) && |t.core.leaves| < Pow2(cfg.depth))
            && (r.Ok? ==> && r.value.0.core == t.core.(leaves := t.core.leaves + [Leaf(cm, ct)])
                          && r.value.0.amm == t.amm.(refunded := t.amm.refunded + {(batch, slot)})
                          && r.value.1 == |t.core.leaves|)
  {
    BatchSafety.BatchesStayWellFormed(cfg, s, calls);
    var t := After(cfg, s, calls);
    assert (batch, slot) in t.amm.orders <==> slot < OrderCount(t.amm, batch);
  }

  lemma TwoPoolSpends(core: Core, caller: Address, nf0: nat, nf1: nat)
    ensures var r0 := PoolSpendIfSet(core, caller, nf0);
            var ok := r0.Ok? && PoolSpendIfSet(r0.value.0, caller, nf1).Ok?;
            && (ok <==> BothSpendable(core, nf0, nf1) && ({nf0, nf1} == {0} || HasPerm(core, caller, PERM_SPEND)))
            && (ok ==> PoolSpendIfSet(r0.value.0, caller, nf1).value.0 == Moved(core, {nf0, nf1}, []))
  {
    assert {nf0, nf1} - {0} == ({nf0} - {0}) + ({nf1} - {0});
    assert nf0 in {nf0, nf1} && nf1 in {nf0, nf1};
    if nf0 == 0 && nf1 == 0 {
      assert {nf0, nf1} == {0};
    }
  }

  lemma AddLiquiditySucceedsIff(cfg: Config, w: World, proof: Proof, root: nat, nf0: nat, nf1: nat, lpCommit: nat,
                                ct: Bytes, postCm: nat, postEnc: Bytes)
    ensures var r := AddLiquidityNotes(cfg, w, proof, root, nf0, nf1, lpCommit, ct, postCm, postEnc);
            && (r.Ok? <==> && RootIsKnown(cfg, w.core, root) && w.amm.reserves.Some?
                           && cfg.verify(VkId.AddLiquidity, proof,
                                         [root, nf0, nf1, lpCommit, w.amm.reserves.value.reserveCm, postCm]) == Ok(true)
                           && BothSpendable(w.core, nf0, nf1)
                           && ({nf0, nf1} == {0} || HasPerm(w.core, w.amm.addr, PERM_SPEND))
                           && HasPerm(w.core, w.amm.addr, PERM_INSERT) && ct != [] && |w.core.leaves| < Pow2(cfg.depth))
            && (r.Ok? ==> && r.value.0.core == Moved(w.core, {nf0, nf1}, [Leaf(lpCommit, ct)])
                          && r.value.0.amm == w.amm.(reserves := Some(EncReserves(postCm, postEnc)),
                                                     lps := w.amm.lps + {lpCommit}))
  {
    TwoPoolSpends(w.core, w.amm.addr, nf0, nf1);
  }

  lemma TwoPoolInserts(cfg: Config, core: Core, caller: Address, cm0: nat, ct0: Bytes, cm1: nat, ct1: Bytes)
    ensures var more := OutputLeaf(cm0, ct0) + OutputLeaf(cm1, ct1);
            var r0 := PoolInsertIfSet(cfg, core, caller, cm0, ct0);
            var ok := r0.Ok? && PoolInsertIfSet(cfg, r0.value.0, caller, cm1, ct1).Ok?;
            && (ok <==> Insertable(cfg, core, more) && (more == [] || HasPerm(core, caller, PERM_INSERT)))
            && (ok ==> PoolInsertIfSet(cfg, r0.value.0, caller, cm1, ct1).value.0 == Moved(core, {}, more))
  {
    TwoInserts(cfg, core, cm0, ct0, cm1, ct1);
  }

  lemma RemoveLiquiditySucceedsIff(cfg: Config, w: World, proof: Proof, root: nat, lpNf: nat, cm0: nat, cm1: nat,
                                   ct0: Bytes, ct1: Bytes, postCm: nat, postEnc: Bytes, lpCommit: nat)
    ensures var more := OutputLeaf(cm0, ct0) + OutputLeaf(cm1, ct1);
            var r := RemoveLiquidityNotes(cfg, w, proof, root, lpNf, cm0, cm1, ct0, ct1, postCm, postEnc, lpCommit);
            && (r.Ok? <==> && lpCommit in w.amm.lps && RootIsKnown(cfg, w.core, root) && w.amm.reserves.Some?
                           && cfg.verify(VkId.RemoveLiquidity, proof,
                                         [root, lpNf, cm0, cm1, w.amm.reserves.value.reserveCm, postCm]) == Ok(true)
                           && HasPerm(w.core, w.amm.addr, PERM_SPEND) && lpNf !in w.core.spent && lpNf !in w.core.locked
                           && Insertable(cfg, w.core, more) && (more == [] || HasPerm(w.core, w.amm.addr, PERM_INSERT)))
            && (r.Ok? ==> && r.value.0.core == w.core.(spent := w.core.spent + {lpNf}, leaves := w.core.leaves + more)
                          && r.value.0.amm == w.amm.(reserves := Some(EncReserves(postCm, postEnc))))
  {
    TwoPoolInserts(cfg, w.core.(spent := w.core.spent + {lpNf}), w.amm.addr, cm0, ct0, cm1, ct1);
  }

  // ---- lending ---------------------------------------------------------------------------------------

  /**
   * In every reachable state a loan opens exactly on fresh prices equal to the claimed ones, a proof, and free
   * collateral.
   */
  lemma BorrowSucceedsIff(cfg: Config, s: Sys, calls: seq<Call>, feed: Feed, proof: Proof, collatNf: nat, borrowCm: nat,
                          ct: Bytes, collatAsset: Asset, borrowAsset: Asset, root: nat, claim: OracleClaim)
    requires IsInitial(s) && AllPermitted(s, calls)
    ensures var t := After(cfg, s, calls);
            var r := OpenLoan(cfg, LendWorld(t.core, t.lend), feed, proof, collatNf, borrowCm, ct, collatAsset,
                              borrowAsset, root, claim);
            && (r.Ok? <==> && ct != [] && RootIsKnown(cfg, t.core, root)
                           && IsFresh(t.lend, feed, collatAsset, claim.oraclePrice)
                           && IsFresh(t.lend, feed, borrowAsset, claim.borrowPrice)
                           && cfg.verify(VkId.Lend, proof,
                                         [root, collatNf, borrowCm, LendCircuit.I128AsField(claim.oraclePrice),
                                          claim.oracleDecimals, t.lend.ltvBps,
                                          LendCircuit.I128AsField(claim.borrowPrice)]) == Ok(true)
                           && HasPerm(t.core, t.lend.addr, PERM_LOCK) && HasPerm(t.core, t.lend.addr, PERM_INSERT)
                           && collatNf !in t.core.spent && collatNf !in LoanInvariant.OpenCollateral(t.lend)
                           && |t.core.leaves| < Pow2(cfg.depth))
            && (r.Ok? ==>
                  && r.value.0.core
                     == t.core.(locked := t.core.locked + {collatNf}, leaves := t.core.leaves + [Leaf(borrowCm, ct)])
                  && r.value.1 !in t.lend.loans
                  && (forall id: nat :: id < r.value.1 ==> id in t.lend.loans)
                  && r.value.0.lend
                     == t.lend.(loans := t.lend.loans[r.value.1 := LoanRec(collatNf, borrowCm, claim.oraclePrice,
                                                                           claim.borrowPrice, t.lend.ltvBps, false)],
                                loanSeq := r.value.1 + 1))
  {
    LoanSafety.LockedIsOpenCollateral(cfg, s, calls);
  }
}
