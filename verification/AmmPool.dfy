/** The pool contract over its storage, calling the core and rolled back by the host on an error. */
module AmmPool {
  import opened Words
  import opened CoreState
  import opened AmmState
  import opened BatchInvariant
  import VC = VeilCore

  class AmmPool {
    const core: VC.VeilCore
    const addr: Address
    const commPk: nat
    const k: nat
    var batchSeq: nat
    var orders: map<(nat, nat), OrderRecord>
    var counts: map<nat, nat>
    var settled: set<nat>
    var deadlines: map<nat, nat>
    var refunded: set<(nat, nat)>
    var reserves: Option<EncReserves>
    var lps: set<nat>

    constructor (core: VC.VeilCore, addr: Address, commPk: nat, k: nat)
      ensures core.Valid() ==> Valid()
      ensures this.core == core && Save() == Amm(addr, commPk, k, 0, map[], map[], {}, map[], {}, None, {})
    {
      this.core, this.addr, this.commPk, this.k := core, addr, commPk, k;
      batchSeq, orders, counts, settled := 0, map[], map[], {};
      deadlines, refunded, reserves, lps := map[], {}, None, {};
      new;
      EmptyPool(Save(), core.spent);
    }

    function Save(): Amm
      reads this
    {
      Amm(addr, commPk, k, batchSeq, orders, counts, settled, deadlines, refunded, reserves, lps)
    }

    ghost function State(): World
      reads this, core
    {
      World(core.State(), Save())
    }

    /** The core is valid and the batches are well formed over its spent nullifiers. */
    ghost predicate Valid()
      reads this, core
    {
      core.Valid() && BatchInv(Save(), core.spent)
    }

    /** The host's rollback of this call and its sub-calls. */
    method Rollback(coreSaved: VC.Storage, ghost coreLeaves: seq<Leaf>, saved: Amm)
      requires saved.addr == addr && saved.commPk == commPk && saved.k == k
      modifies this, core
      ensures core.Save() == coreSaved && core.leaves == coreLeaves && Save() == saved
    {
      core.Restore(coreSaved, coreLeaves);
      batchSeq, orders, counts, settled := saved.batchSeq, saved.orders, saved.counts, saved.settled;
      deadlines, refunded, reserves, lps := saved.deadlines, saved.refunded, saved.reserves, saved.lps;
    }

    method CoreVerify(vk: VkId, proof: Proof, inputs: seq<nat>) returns (r: Result<(), AmmError>)
      ensures r == Verify(core.cfg, vk, proof, inputs)
    {
      var ok := core.cfg.verify(vk, proof, inputs);
      if ok.Err? || !ok.value {
        return Err(AmmError.BadProof);
      }
      r := Ok(());
    }

    method CoreSpend(nf: nat) returns (r: Result<(), AmmError>)
      requires core.Valid()
      modifies core
      ensures core.Valid() && Outcome(CoreCall(Spend(old(core.State()), addr, nf)), old(core.State()), r, core.State())
    {
      var s := core.Spend(addr, nf);
      r := CoreCall(s);
    }

    method CoreInsert(cm: nat, ct: Bytes) returns (r: Result<nat, AmmError>)
      requires core.Valid()
      modifies core
      ensures core.Valid()
      ensures Outcome(CoreCall(InsertCommitment(core.cfg, old(core.State()), addr, cm, ct)), old(core.State()), r,
                      core.State())
    {
      var i := core.InsertCommitment(addr, cm, ct);
      r := CoreCall(i);
    }

    method CoreSpendIfSet(nf: nat) returns (r: Result<(), AmmError>)
      requires core.Valid()
      modifies core
      ensures core.Valid() && Outcome(PoolSpendIfSet(old(core.State()), addr, nf), old(core.State()), r, core.State())
    {
      if nf == 0 {
        return Ok(());
      }
      r := CoreSpend(nf);
    }

    method CoreInsertIfSet(cm: nat, ct: Bytes) returns (r: Result<(), AmmError>)
      requires core.Valid()
      modifies core
      ensures core.Valid()
              && Outcome(PoolInsertIfSet(core.cfg, old(core.State()), addr, cm, ct), old(core.State()), r, core.State())
    {
      if cm == 0 {
        return Ok(());
      }
      var _ :- CoreInsert(cm, ct);
      r := Ok(());
    }

    method InitializeReserves(reserveCm: nat, encData: Bytes) returns (r: Result<(), AmmError>)
      requires Valid()
      modifies this
      ensures Valid()
              && Outcome(AmmState.InitializeReserves(old(State()), reserveCm, encData), old(State()), r, State())
      ensures r.Ok? <==> old(reserves).None?
      ensures r.Ok? ==> Save() == old(Save()).(reserves := Some(EncReserves(reserveCm, encData)))
    {
      if reserves.Some? {
        return Err(Trap);
      }
      ghost var before := Save();
      reserves := Some(EncReserves(reserveCm, encData));
      SameBatchesKeep(before, Save(), core.spent, core.spent);
      r := Ok(());
    }

    // ---- submit_order ----------------------------------------------------------------------

    method TakeSlot(ledger: nat, rec: OrderRecord) returns (r: Result<nat, AmmError>)
      modifies this
      ensures Outcome(AmmState.TakeSlot(old(Save()), ledger, rec), old(Save()), r, Save())
    {
      var batchId := batchSeq;
      var slot := if batchId in counts then counts[batchId] else 0;
      if slot >= k {
        return Err(BatchFull);
      }
      if slot == 0 {
        if ledger + BATCH_TIMEOUT_LEDGERS >= TWO_32 {
          return Err(Trap);
        }
        deadlines := deadlines[batchId := ledger + BATCH_TIMEOUT_LEDGERS];
      }
      orders := orders[(batchId, slot) := rec];
      counts := counts[batchId := slot + 1];
      r := Ok(slot);
    }

    method SubmitOrderBody(ledger: nat, submitter: Address, proof: Proof, encOrder: Bytes, nfIn: nat, encOrderHash: nat,
                           root: nat)
      returns (r: Result<nat, AmmError>)
      requires core.Valid()
      modifies this, core
      ensures core.Valid()
      ensures Partial(AmmState.SubmitOrder(core.cfg, old(State()), ledger, submitter, proof, encOrder, nfIn,
                                           encOrderHash, root), r, State())
    {
      var known := core.RootIsKnown(root);
      if !known {
        return Err(AmmError.UnknownRoot);
      }
      var _ :- CoreVerify(Swap, proof, [root, nfIn, encOrderHash, commPk]);
      var _ :- CoreSpend(nfIn);
      r := TakeSlot(ledger, OrderRecord(encOrder, nfIn, encOrderHash, submitter));
    }

    method SubmitOrder(ledger: nat, submitter: Address, proof: Proof, encOrder: Bytes, nfIn: nat, encOrderHash: nat,
                       root: nat)
      returns (r: Result<nat, AmmError>)
      requires Valid()
      modifies this, core
      ensures Valid()
      ensures Outcome(AmmState.SubmitOrder(core.cfg, old(State()), ledger, submitter, proof, encOrder, nfIn,
                                           encOrderHash, root),
                      old(State()), r, State())
    {
      var coreSaved, saved := core.Save(), Save();
      ghost var coreLeaves, before := core.leaves, State();
      r := SubmitOrderBody(ledger, submitter, proof, encOrder, nfIn, encOrderHash, root);
      if r.Err? {
        Rollback(coreSaved, coreLeaves, saved);
      } else {
        SubmitKeeps(core.cfg, before, ledger, submitter, proof, encOrder, nfIn, encOrderHash, root);
      }
    }

    // ---- settle_batch -----------------------------------------------------------------------

    /** The stored hashes of a batch in slot order; None is the unwrap of a missing order. */
    method StoredHashes(batchId: nat) returns (r: Option<seq<nat>>)
      ensures r.Some? <==> BatchStored(Save(), batchId)
      ensures r.Some? ==> r.value == BatchHashes(Save(), batchId)
    {
      var inputs: seq<nat> := [];
      for slot := 0 to k
        invariant |inputs| == slot
        invariant forall s :: 0 <= s < slot ==>
                                (batchId, s) in orders && inputs[s] == orders[(batchId, s)].encOrderHash
      {
        if (batchId, slot) !in orders {
          return None;
        }
        inputs := inputs + [orders[(batchId, slot)].encOrderHash];
      }
      r := Some(inputs);
    }

    /** The output commitments pushed after `before`; None when a ciphertext is missing. */
    static method PushOutputs(before: seq<nat>, outputs: seq<Output>) returns (r: Option<seq<nat>>)
      ensures r.Some? <==> HaveOutputCts(outputs)
      ensures r.Some? ==> r.value == before + OutputCms(outputs)
    {
      var inputs := before;
      for i := 0 to |outputs|
        invariant |inputs| == |before| + i && before <= inputs
        invariant forall j :: 0 <= j < i ==> outputs[j].1 != [] && inputs[|before| + j] == outputs[j].0
      {
        var (cm, ct) := outputs[i];
        if |ct| == 0 {
          return None;
        }
        inputs := inputs + [cm];
      }
      r := Some(inputs);
    }

    /** The public inputs of the settlement proof, pushed in circuit order; a missing order aborts first. */
    method BuildSettleInputs(batchId: nat, outputs: seq<Output>, preCm: nat, postCm: nat)
      returns (r: Result<seq<nat>, AmmError>)
      requires |outputs| == k
      ensures r.Ok? <==> BatchStored(Save(), batchId) && HaveOutputCts(outputs)
      ensures r.Ok? ==> IsSettleVector(Save(), batchId, outputs, preCm, postCm, r.value)
      ensures r.Err? ==> r == Err(if BatchStored(Save(), batchId) then AmmError.MissingAuditorCt else Trap)
    {
      var hashes := StoredHashes(batchId);
      if hashes.None? {
        return Err(Trap);
      }
      var inputs := PushOutputs(hashes.value, outputs);
      if inputs.None? {
        return Err(AmmError.MissingAuditorCt);
      }
      r := Ok(inputs.value + [commPk, batchId, preCm, postCm]);
      SettleInputsAre(Save(), batchId, outputs, preCm, postCm, r.value);
    }

    method InsertOutputs(outputs: seq<Output>) returns (r: Result<(), AmmError>)
      requires core.Valid()
      modifies core
      ensures core.Valid() && Partial(InsertAll(core.cfg, old(core.State()), addr, outputs), r, core.State())
    {
      ghost var before := core.State();
      for i := 0 to |outputs|
        invariant core.Valid()
        invariant InsertAll(core.cfg, before, addr, outputs[..i]) == Ok((core.State(), ()))
      {
        InsertAllPrefix(core.cfg, before, outputs, i);
        assert outputs[..i + 1][..i] == outputs[..i];
        var _ :- CoreInsert(outputs[i].0, outputs[i].1);
      }
      assert outputs[..|outputs|] == outputs;
      r := Ok(());
    }

    /** Once one insertion fails, the whole sequence does. */
    lemma {:induction false} InsertAllPrefix(cfg: Config, before: Core, outputs: seq<Output>, i: nat)
      requires i < |outputs|
      requires InsertAll(cfg, before, addr, outputs[..i]).Ok?
      ensures CoreCall(InsertCommitment(cfg, InsertAll(cfg, before, addr, outputs[..i]).value.0, addr, outputs[i].0,
                                        outputs[i].1)).Err?
              ==> InsertAll(cfg, before, addr, outputs) == Err(CoreCallFailed)
      decreases |outputs|
    {
      if i == |outputs| - 1 {
      } else {
        var n := |outputs| - 1;
        assert outputs[..n][..i] == outputs[..i];
        InsertAllPrefix(cfg, before, outputs[..n], i);
      }
    }

    method CheckSettle(batchId: nat, proof: Proof, outputs: seq<Output>, postReserveCm: nat)
      returns (r: Result<(), AmmError>)
      ensures r == AmmState.CheckSettle(core.cfg, State(), batchId, proof, outputs, postReserveCm)
    {
      if batchId in settled {
        return Err(AlreadySettled);
      }
      var cur := batchSeq;
      if batchId != cur {
        return Err(UnknownOrder);
      }
      var cnt := if batchId in counts then counts[batchId] else 0;
      if cnt < k {
        return Err(BatchNotFull);
      }
      if |outputs| != k {
        return Err(WrongOutputCount);
      }
      if reserves.None? {
        return Err(ReserveMismatch);
      }
      var inputs :- BuildSettleInputs(batchId, outputs, reserves.value.reserveCm, postReserveCm);
      SettleInputsAre(Save(), batchId, outputs, reserves.value.reserveCm, postReserveCm, inputs);
      r := CoreVerify(BatchSettle, proof, inputs);
    }

    method SettleBatchBody(batchId: nat, proof: Proof, outputs: seq<Output>, postReserveCm: nat, postEncReserves: Bytes)
      returns (r: Result<(), AmmError>)
      requires core.Valid()
      modifies this, core
      ensures core.Valid()
      ensures Partial(AmmState.SettleBatch(core.cfg, old(State()), batchId, proof, outputs, postReserveCm,
                                           postEncReserves),
                      r, State())
    {
      var _ :- CheckSettle(batchId, proof, outputs, postReserveCm);
      var _ :- InsertOutputs(outputs);
      settled := settled + {batchId};
      batchSeq := batchId + 1;
      reserves := Some(EncReserves(postReserveCm, postEncReserves));
      r := Ok(());
    }

    method SettleBatch(batchId: nat, proof: Proof, outputs: seq<Output>, postReserveCm: nat, postEncReserves: Bytes)
      returns (r: Result<(), AmmError>)
      requires Valid()
      modifies this, core
      ensures Valid()
      ensures Outcome(AmmState.SettleBatch(core.cfg, old(State()), batchId, proof, outputs, postReserveCm,
                                           postEncReserves),
                      old(State()), r, State())
    {
      var coreSaved, saved := core.Save(), Save();
      ghost var coreLeaves, before := core.leaves, State();
      r := SettleBatchBody(batchId, proof, outputs, postReserveCm, postEncReserves);
      if r.Err? {
        Rollback(coreSaved, coreLeaves, saved);
      } else {
        SettleKeeps(core.cfg, before, batchId, proof, outputs, postReserveCm, postEncReserves);
      }
    }

    // ---- liquidity ---------------------------------------------------------------------------

    method AddLiquidityBody(proof: Proof, root: nat, nfIn0: nat, nfIn1: nat, lpCommit: nat, ct: Bytes,
                            postReserveCm: nat, postEncReserves: Bytes)
      returns (r: Result<(), AmmError>)
      requires core.Valid()
      modifies this, core
      ensures core.Valid()
      ensures Partial(AddLiquidityNotes(core.cfg, old(State()), proof, root, nfIn0, nfIn1, lpCommit, ct, postReserveCm,
                                        postEncReserves), r, State())
    {
      var known := core.RootIsKnown(root);
      if !known {
        return Err(AmmError.UnknownRoot);
      }
      if reserves.None? {
        return Err(ReserveMismatch);
      }
      var _ :- CoreVerify(VkId.AddLiquidity, proof,
                          [root, nfIn0, nfIn1, lpCommit, reserves.value.reserveCm, postReserveCm]);
      var _ :- CoreSpendIfSet(nfIn0);
      var _ :- CoreSpendIfSet(nfIn1);
      var _ :- CoreInsert(lpCommit, ct);
      reserves := Some(EncReserves(postReserveCm, postEncReserves));
      lps := lps + {lpCommit};
      r := Ok(());
    }

    method AddLiquidity(proof: Proof, root: nat, nfIn0: nat, nfIn1: nat, lpCommit: nat, ct: Bytes, postReserveCm: nat,
                        postEncReserves: Bytes)
      returns (r: Result<(), AmmError>)
      requires Valid()
      modifies this, core
      ensures Valid()
      ensures Outcome(AddLiquidityNotes(core.cfg, old(State()), proof, root, nfIn0, nfIn1, lpCommit, ct, postReserveCm,
                                        postEncReserves),
                      old(State()), r, State())
    {
      var coreSaved, saved := core.Save(), Save();
      ghost var coreLeaves, before := core.leaves, State();
      r := AddLiquidityBody(proof, root, nfIn0, nfIn1, lpCommit, ct, postReserveCm, postEncReserves);
      if r.Err? {
        Rollback(coreSaved, coreLeaves, saved);
      } else {
        AddLiquidityKeeps(core.cfg, before, proof, root, nfIn0, nfIn1, lpCommit, ct, postReserveCm, postEncReserves);
      }
    }

    method RemoveLiquidityBody(proof: Proof, root: nat, lpNf: nat, cmOut0: nat, cmOut1: nat, ct0: Bytes, ct1: Bytes,
                               postReserveCm: nat, postEncReserves: Bytes, lpCommit: nat)
      returns (r: Result<(), AmmError>)
      requires core.Valid()
      modifies this, core
      ensures core.Valid()
      ensures Partial(RemoveLiquidityNotes(core.cfg, old(State()), proof, root, lpNf, cmOut0, cmOut1, ct0, ct1,
                                           postReserveCm, postEncReserves, lpCommit), r, State())
    {
      if lpCommit !in lps {
        return Err(UnknownLp);
      }
      var known := core.RootIsKnown(root);
      if !known {
        return Err(AmmError.UnknownRoot);
      }
      if reserves.None? {
        return Err(ReserveMismatch);
      }
      var _ :- CoreVerify(VkId.RemoveLiquidity, proof,
                          [root, lpNf, cmOut0, cmOut1, reserves.value.reserveCm, postReserveCm]);
      var _ :- CoreSpend(lpNf);
      var _ :- CoreInsertIfSet(cmOut0, ct0);
      var _ :- CoreInsertIfSet(cmOut1, ct1);
      reserves := Some(EncReserves(postReserveCm, postEncReserves));
      r := Ok(());
    }

    method RemoveLiquidity(proof: Proof, root: nat, lpNf: nat, cmOut0: nat, cmOut1: nat, ct0: Bytes, ct1: Bytes,
                           postReserveCm: nat, postEncReserves: Bytes, lpCommit: nat)
      returns (r: Result<(), AmmError>)
      requires Valid()
      modifies this, core
      ensures Valid()
      ensures Outcome(RemoveLiquidityNotes(core.cfg, old(State()), proof, root, lpNf, cmOut0, cmOut1, ct0, ct1,
                                           postReserveCm, postEncReserves, lpCommit), old(State()), r, State())
    {
      var coreSaved, saved := core.Save(), Save();
      ghost var coreLeaves, before := core.leaves, State();
      r := RemoveLiquidityBody(proof, root, lpNf, cmOut0, cmOut1, ct0, ct1, postReserveCm, postEncReserves, lpCommit);
      if r.Err? {
        Rollback(coreSaved, coreLeaves, saved);
      } else {
        RemoveLiquidityKeeps(core.cfg, before, proof, root, lpNf, cmOut0, cmOut1, ct0, ct1,
                             postReserveCm, postEncReserves, lpCommit);
      }
    }

    // ---- refund_order ---------------------------------------------------------------------------

    method RefundOrderBody(ledger: nat, batchId: nat, slot: nat, proof: Proof, root: nat, cmRefund: nat, ct: Bytes)
      returns (r: Result<nat, AmmError>)
      requires core.Valid()
      modifies this, core
      ensures core.Valid()
      ensures Partial(AmmState.RefundOrder(core.cfg, old(State()), ledger, batchId, slot, proof, root, cmRefund, ct), r,
                      State())
    {
      if batchId in settled {
        return Err(AlreadySettled);
      }
      var tmo := if batchId in deadlines then deadlines[batchId] else 0;
      if ledger <= tmo {
        return Err(NotExpired);
      }
      if (batchId, slot) !in orders {
        return Err(UnknownOrder);
      }
      if (batchId, slot) in refunded {
        return Err(AlreadyRefunded);
      }
      var rec := orders[(batchId, slot)];
      if |ct| == 0 {
        return Err(AmmError.MissingAuditorCt);
      }
      var known := core.RootIsKnown(root);
      if !known {
        return Err(AmmError.UnknownRoot);
      }
      var _ :- CoreVerify(SettleOrRefund, proof, [batchId, rec.nfIn, cmRefund, root, tmo]);
      refunded := refunded + {(batchId, slot)};
      r := CoreInsert(cmRefund, ct);
    }

    method RefundOrder(ledger: nat, batchId: nat, slot: nat, proof: Proof, root: nat, cmRefund: nat, ct: Bytes)
      returns (r: Result<nat, AmmError>)
      requires Valid()
      modifies this, core
      ensures Valid()
      ensures Outcome(AmmState.RefundOrder(core.cfg, old(State()), ledger, batchId, slot, proof, root, cmRefund, ct),
                      old(State()), r, State())
    {
      var coreSaved, saved := core.Save(), Save();
      ghost var coreLeaves, before := core.leaves, State();
      r := RefundOrderBody(ledger, batchId, slot, proof, root, cmRefund, ct);
      if r.Err? {
        Rollback(coreSaved, coreLeaves, saved);
      } else {
        RefundKeeps(core.cfg, before, ledger, batchId, slot, proof, root, cmRefund, ct);
      }
    }
  }
}
