/** What every pool call keeps of the batches: slots, counters, deadlines and the nullifiers of orders. */
module BatchInvariant {
  import opened Words
  import opened CoreState
  import opened AmmState

  ghost predicate SettledBelow(amm: Amm) {
    forall b: nat :: b in amm.settled <==> b < amm.batchSeq
  }

  /** Closed batches are full, the open one holds at most K orders, later ones none. */
  ghost predicate CountsFit(amm: Amm) {
    forall b: nat ::
      && OrderCount(amm, b) <= amm.k
      && (b < amm.batchSeq ==> OrderCount(amm, b) == amm.k)
      && (b > amm.batchSeq ==> OrderCount(amm, b) == 0)
  }

  /** The orders of a batch fill its slots from 0 without a gap. */
  ghost predicate SlotsFilled(amm: Amm) {
    forall b: nat, s: nat :: (b, s) in amm.orders <==> s < OrderCount(amm, b)
  }

  predicate OrdersSpent(amm: Amm, spent: set<nat>) {
    forall o :: o in amm.orders ==> amm.orders[o].nfIn in spent
  }

  predicate OrdersDistinct(amm: Amm) {
    forall o, p :: o in amm.orders && p in amm.orders && amm.orders[o].nfIn == amm.orders[p].nfIn ==> o == p
  }

  ghost predicate DeadlinesSet(amm: Amm) {
    forall b: nat :: b in amm.deadlines <==> OrderCount(amm, b) > 0
  }

  /**
   * The settled batches are those below the counter and are full, the current one holds a prefix of the K slots, later
   * ones are empty, and the stored orders spent pairwise distinct nullifiers.
   */
  ghost predicate BatchInv(amm: Amm, spent: set<nat>) {
    && SettledBelow(amm) && CountsFit(amm) && SlotsFilled(amm) && DeadlinesSet(amm)
    && OrdersSpent(amm, spent) && OrdersDistinct(amm)
    && amm.refunded <= amm.orders.Keys
  }

  /** Two pools with the same batches; reserves and liquidity may differ. */
  predicate SameBatches(a: Amm, b: Amm) {
    b.(reserves := a.reserves, lps := a.lps) == a
  }

  lemma SlotTaken(amm: Amm, ledger: nat, rec: OrderRecord, spent: set<nat>)
    requires BatchInv(amm, spent) && rec.nfIn !in spent && TakeSlot(amm, ledger, rec).Ok?
    ensures BatchInv(TakeSlot(amm, ledger, rec).value.0, spent + {rec.nfIn})
  {
    var (after, slot) := TakeSlot(amm, ledger, rec).value;
    forall b: nat
      ensures OrderCount(after, b) == if b == amm.batchSeq then slot + 1 else OrderCount(amm, b)
    {}
    forall o | o in after.orders
      ensures o in amm.orders || o == (amm.batchSeq, slot)
    {}
  }

  lemma BatchClosed(amm: Amm, spent: set<nat>, reserves: EncReserves)
    requires BatchInv(amm, spent) && OrderCount(amm, amm.batchSeq) >= amm.k
    ensures BatchInv(Settled(amm, amm.batchSeq, reserves), spent)
  {
    var after := Settled(amm, amm.batchSeq, reserves);
    forall b: nat
      ensures OrderCount(after, b) == OrderCount(amm, b)
    {}
  }

  lemma SameBatchesKeep(a: Amm, b: Amm, spent: set<nat>, more: set<nat>)
    requires BatchInv(a, spent) && SameBatches(a, b) && spent <= more
    ensures BatchInv(b, more)
  {
    forall x: nat
      ensures OrderCount(b, x) == OrderCount(a, x)
    {}
  }

  lemma RefundMarked(amm: Amm, spent: set<nat>, order: (nat, nat))
    requires BatchInv(amm, spent) && order in amm.orders
    ensures BatchInv(amm.(refunded := amm.refunded + {order}), spent)
  {
    var after := amm.(refunded := amm.refunded + {order});
    forall x: nat
      ensures OrderCount(after, x) == OrderCount(amm, x)
    {}
  }

  // ---- the entry points keep it ------------------------------------------------------------

  lemma EmptyPool(amm: Amm, spent: set<nat>)
    requires amm.batchSeq == 0 && amm.orders == map[] && amm.counts == map[] && amm.settled == {}
    requires amm.deadlines == map[] && amm.refunded == {}
    ensures BatchInv(amm, spent)
  {}

  /** What an accepted order rests on, and what it does to the pool and to SPENT. */
  lemma SubmitEffect(cfg: Config, w: World, ledger: nat, submitter: Address, proof: Proof, encOrder: Bytes,
                     nfIn: nat, encOrderHash: nat, root: nat)
    requires SubmitOrder(cfg, w, ledger, submitter, proof, encOrder, nfIn, encOrderHash, root).Ok?
    ensures var t := SubmitOrder(cfg, w, ledger, submitter, proof, encOrder, nfIn, encOrderHash, root).value.0;
            var r := TakeSlot(w.amm, ledger, OrderRecord(encOrder, nfIn, encOrderHash, submitter));
            && RootIsKnown(cfg, w.core, root)
            && cfg.verify(VkId.Swap, proof, [root, nfIn, encOrderHash, w.amm.commPk]) == Ok(true)
            && nfIn !in w.core.spent && t.core.spent == w.core.spent + {nfIn} && r.Ok? && t.amm == r.value.0
  {}

  lemma SubmitKeeps(cfg: Config, w: World, ledger: nat, submitter: Address, proof: Proof, encOrder: Bytes,
                    nfIn: nat, encOrderHash: nat, root: nat)
    requires BatchInv(w.amm, w.core.spent)
    requires SubmitOrder(cfg, w, ledger, submitter, proof, encOrder, nfIn, encOrderHash, root).Ok?
    ensures var t := SubmitOrder(cfg, w, ledger, submitter, proof, encOrder, nfIn, encOrderHash, root).value.0;
            BatchInv(t.amm, t.core.spent)
  {
    SubmitEffect(cfg, w, ledger, submitter, proof, encOrder, nfIn, encOrderHash, root);
    SlotTaken(w.amm, ledger, OrderRecord(encOrder, nfIn, encOrderHash, submitter), w.core.spent);
  }

  /** What a settlement rests on, and what it does to the pool and to the leaves. */
  lemma SettleEffect(cfg: Config, w: World, batch: nat, proof: Proof, outputs: seq<Output>, postCm: nat, postEnc: Bytes)
    requires SettleBatch(cfg, w, batch, proof, outputs, postCm, postEnc).Ok?
    ensures var t := SettleBatch(cfg, w, batch, proof, outputs, postCm, postEnc).value.0;
            && CheckSettle(cfg, w, batch, proof, outputs, postCm) == Ok(())
            && t.amm == Settled(w.amm, batch, EncReserves(postCm, postEnc))
            && t.core == w.core.(leaves := w.core.leaves + OutputLeaves(outputs))
  {
    InsertAllSucceedsIff(cfg, w.core, w.amm.addr, outputs);
  }

  lemma SettleKeeps(cfg: Config, w: World, batch: nat, proof: Proof, outputs: seq<Output>, postCm: nat, postEnc: Bytes)
    requires BatchInv(w.amm, w.core.spent) && SettleBatch(cfg, w, batch, proof, outputs, postCm, postEnc).Ok?
    ensures var t := SettleBatch(cfg, w, batch, proof, outputs, postCm, postEnc).value.0;
            BatchInv(t.amm, t.core.spent)
  {
    SettleEffect(cfg, w, batch, proof, outputs, postCm, postEnc);
    BatchClosed(w.amm, w.core.spent, EncReserves(postCm, postEnc));
  }

  /** What a refund rests on, and what it does to the pool and to the leaves. */
  lemma RefundEffect(cfg: Config, w: World, ledger: nat, batch: nat, slot: nat, proof: Proof, root: nat, cm: nat,
                     ct: Bytes)
    requires RefundOrder(cfg, w, ledger, batch, slot, proof, root, cm, ct).Ok?
    ensures var t := RefundOrder(cfg, w, ledger, batch, slot, proof, root, cm, ct).value.0;
            && batch !in w.amm.settled && ledger > Deadline(w.amm, batch)
            && (batch, slot) in w.amm.orders && (batch, slot) !in w.amm.refunded && RootIsKnown(cfg, w.core, root)
            && cfg.verify(VkId.SettleOrRefund, proof,
                          [batch, w.amm.orders[(batch, slot)].nfIn, cm, root, Deadline(w.amm, batch)]) == Ok(true)
            && t.amm == w.amm.(refunded := w.amm.refunded + {(batch, slot)})
            && t.core == w.core.(leaves := w.core.leaves + [Leaf(cm, ct)])
  {}

  lemma RefundKeeps(cfg: Config, w: World, ledger: nat, batch: nat, slot: nat, proof: Proof, root: nat, cm: nat,
                    ct: Bytes)
    requires BatchInv(w.amm, w.core.spent) && RefundOrder(cfg, w, ledger, batch, slot, proof, root, cm, ct).Ok?
    ensures var t := RefundOrder(cfg, w, ledger, batch, slot, proof, root, cm, ct).value.0;
            BatchInv(t.amm, t.core.spent)
  {
    RefundEffect(cfg, w, ledger, batch, slot, proof, root, cm, ct);
    RefundMarked(w.amm, w.core.spent, (batch, slot));
  }

  lemma AddLiquidityKeeps(cfg: Config, w: World, proof: Proof, root: nat, nfIn0: nat, nfIn1: nat, lpCommit: nat,
                          ct: Bytes, postCm: nat, postEnc: Bytes)
    requires BatchInv(w.amm, w.core.spent)
    requires AddLiquidityNotes(cfg, w, proof, root, nfIn0, nfIn1, lpCommit, ct, postCm, postEnc).Ok?
    ensures var t := AddLiquidityNotes(cfg, w, proof, root, nfIn0, nfIn1, lpCommit, ct, postCm, postEnc).value.0;
            BatchInv(t.amm, t.core.spent)
  {
    var t := AddLiquidityNotes(cfg, w, proof, root, nfIn0, nfIn1, lpCommit, ct, postCm, postEnc).value.0;
    SameBatchesKeep(w.amm, t.amm, w.core.spent, t.core.spent);
  }

  lemma RemoveLiquidityKeeps(cfg: Config, w: World, proof: Proof, root: nat, lpNf: nat, cmOut0: nat, cmOut1: nat,
                             ct0: Bytes, ct1: Bytes, postCm: nat, postEnc: Bytes, lpCommit: nat)
    requires BatchInv(w.amm, w.core.spent)
    requires RemoveLiquidityNotes(cfg, w, proof, root, lpNf, cmOut0, cmOut1, ct0, ct1, postCm, postEnc, lpCommit).Ok?
    ensures var t := RemoveLiquidityNotes(cfg, w, proof, root, lpNf, cmOut0, cmOut1, ct0, ct1, postCm, postEnc,
                                          lpCommit)
                     .value.0;
            BatchInv(t.amm, t.core.spent)
  {
    var t := RemoveLiquidityNotes(cfg, w, proof, root, lpNf, cmOut0, cmOut1, ct0, ct1, postCm, postEnc,
                                  lpCommit).value.0;
    SameBatchesKeep(w.amm, t.amm, w.core.spent, t.core.spent);
  }
}
