/** The pool's batches over whole runs: slots, deadlines, settlement and refund. */
module BatchSafety {
  import opened CoreState
  import opened AmmState
  import opened BatchInvariant
  import opened System

  // ---- one call --------------------------------------------------------------------------------

  lemma OtherCallsKeepBatches(cfg: Config, s: Sys, c: Call)
    requires !c.Submit? && !c.Settle? && !c.Refund?
    ensures SameBatches(s.amm, Next(cfg, s, c).amm)
  {
    if Apply(cfg, s, c).Some? && !IsPoolCall(c) && !IsLendCall(c) {
      CoreCallGrows(cfg, s, c);
    }
  }

  lemma PoolCallKeepsBatchInv(cfg: Config, s: Sys, c: Call)
    requires BatchInv(s.amm, s.core.spent) && IsPoolCall(c) && ApplyPool(cfg, s, c).Some?
    ensures BatchInv(ApplyPool(cfg, s, c).value.amm, ApplyPool(cfg, s, c).value.core.spent)
  {
    var w := World(s.core, s.amm);
    match c
    case StartReserves(cm, data) =>
      SameBatchesKeep(s.amm, ApplyPool(cfg, s, c).value.amm, s.core.spent, s.core.spent);
    case Submit(ledger, submitter, proof, encOrder, nfIn, encOrderHash, root) =>
      SubmitKeeps(cfg, w, ledger, submitter, proof, encOrder, nfIn, encOrderHash, root);
    case Settle(batch, proof, outputs, postCm, postEnc) =>
      SettleKeeps(cfg, w, batch, proof, outputs, postCm, postEnc);
    case AddLp(proof, root, nfIn0, nfIn1, lpCommit, ct, postCm, postEnc) =>
      AddLiquidityKeeps(cfg, w, proof, root, nfIn0, nfIn1, lpCommit, ct, postCm, postEnc);
    case RemoveLp(proof, root, lpNf, cmOut0, cmOut1, ct0, ct1, postCm, postEnc, lpCommit) =>
      RemoveLiquidityKeeps(cfg, w, proof, root, lpNf, cmOut0, cmOut1, ct0, ct1, postCm, postEnc, lpCommit);
    case Refund(ledger, batch, slot, proof, root, cmRefund, ct) =>
      RefundKeeps(cfg, w, ledger, batch, slot, proof, root, cmRefund, ct);
  }

  lemma NextKeepsBatchInv(cfg: Config, s: Sys, c: Call)
    requires BatchInv(s.amm, s.core.spent)
    ensures BatchInv(Next(cfg, s, c).amm, Next(cfg, s, c).core.spent)
  {
    var t := Next(cfg, s, c);
    if Apply(cfg, s, c).Some? {
      if IsPoolCall(c) {
        PoolCallKeepsBatchInv(cfg, s, c);
      } else {
        NextGrows(cfg, s, c);
        OtherCallsKeepBatches(cfg, s, c);
        SameBatchesKeep(s.amm, t.amm, s.core.spent, t.core.spent);
      }
    }
  }

  /**
   * After any calls: the settled batches are those below the counter and are full, the current batch holds a prefix
   * of at most K slots, later ones are empty, and the stored orders spent pairwise distinct nullifiers.
   */
  lemma {:induction false} BatchesStayWellFormed(cfg: Config, s: Sys, calls: seq<Call>)
    requires IsInitial(s)
    ensures BatchInv(After(cfg, s, calls).amm, After(cfg, s, calls).core.spent)
  {
    if calls != [] {
      BatchesStayWellFormed(cfg, s, calls[..|calls| - 1]);
      NextKeepsBatchInv(cfg, After(cfg, s, calls[..|calls| - 1]), calls[|calls| - 1]);
    }
  }

  // ---- what a run can never undo ------------------------------------------------------------------

  /** Settled and refunded marks stay; stored orders and deadlines never change. */
  predicate Later(a: Amm, b: Amm) {
    && a.addr == b.addr && a.commPk == b.commPk && a.k == b.k
    && a.settled <= b.settled && a.refunded <= b.refunded
    && (forall o :: o in a.orders ==> o in b.orders && b.orders[o] == a.orders[o])
    && (forall d :: d in a.deadlines ==> d in b.deadlines && b.deadlines[d] == a.deadlines[d])
  }

  lemma NextIsLater(cfg: Config, s: Sys, c: Call)
    requires BatchInv(s.amm, s.core.spent)
    ensures Later(s.amm, Next(cfg, s, c).amm)
  {
    if Apply(cfg, s, c).None? {
    } else if c.Submit? {
      SubmitEffect(cfg, World(s.core, s.amm), c.ledger, c.submitter, c.proof, c.encOrder, c.nfIn, c.encOrderHash,
                   c.root);
    } else if c.Settle? {
      SettleEffect(cfg, World(s.core, s.amm), c.batch, c.proof, c.outputs, c.postCm, c.postEnc);
    } else if c.Refund? {
      RefundEffect(cfg, World(s.core, s.amm), c.ledger, c.batch, c.slot, c.proof, c.root, c.cmRefund, c.ct);
    } else {
      OtherCallsKeepBatches(cfg, s, c);
    }
  }

  lemma {:induction false} PoolOnlyMovesOn(cfg: Config, s: Sys, calls: seq<Call>, i: nat, j: nat)
    requires IsInitial(s) && i <= j <= |calls|
    ensures Later(At(cfg, s, calls, i).amm, At(cfg, s, calls, j).amm)
    decreases j
  {
    if i < j {
      PoolOnlyMovesOn(cfg, s, calls, i, j - 1);
      AtStep(cfg, s, calls, j - 1);
      BatchesStayWellFormed(cfg, s, calls[..j - 1]);
      NextIsLater(cfg, At(cfg, s, calls, j - 1), calls[j - 1]);
    }
  }

  predicate SettlesAt(cfg: Config, s: Sys, calls: seq<Call>, i: nat, batch: nat) {
    i < |calls| && calls[i].Settle? && calls[i].batch == batch && Succeeds(cfg, s, calls, i)
  }

  predicate RefundsAt(cfg: Config, s: Sys, calls: seq<Call>, i: nat, batch: nat, slot: nat) {
    i < |calls| && calls[i].Refund? && calls[i].batch == batch && calls[i].slot == slot && Succeeds(cfg, s, calls, i)
  }

  /** Call i put the first order into the batch. */
  predicate OpensAt(cfg: Config, s: Sys, calls: seq<Call>, i: nat, batch: nat) {
    && i < |calls| && calls[i].Submit? && Succeeds(cfg, s, calls, i)
    && At(cfg, s, calls, i).amm.batchSeq == batch && OrderCount(At(cfg, s, calls, i).amm, batch) == 0
  }

  lemma SettleMarks(cfg: Config, s: Sys, calls: seq<Call>, i: nat, batch: nat)
    requires SettlesAt(cfg, s, calls, i, batch)
    ensures batch !in At(cfg, s, calls, i).amm.settled && batch in At(cfg, s, calls, i + 1).amm.settled
    ensures At(cfg, s, calls, i + 1).amm.refunded == At(cfg, s, calls, i).amm.refunded
  {
    AtStep(cfg, s, calls, i);
    var t, c := At(cfg, s, calls, i), calls[i];
    SettleEffect(cfg, World(t.core, t.amm), c.batch, c.proof, c.outputs, c.postCm, c.postEnc);
  }

  lemma RefundMarks(cfg: Config, s: Sys, calls: seq<Call>, i: nat, batch: nat, slot: nat)
    requires RefundsAt(cfg, s, calls, i, batch, slot)
    ensures var before, after := At(cfg, s, calls, i).amm, At(cfg, s, calls, i + 1).amm;
            && batch !in before.settled && (batch, slot) !in before.refunded && (batch, slot) in after.refunded
            && calls[i].ledger > Deadline(before, batch) && (batch, slot) in before.orders
  {
    AtStep(cfg, s, calls, i);
    var t, c := At(cfg, s, calls, i), calls[i];
    RefundEffect(cfg, World(t.core, t.amm), c.ledger, c.batch, c.slot, c.proof, c.root, c.cmRefund, c.ct);
  }

  /** No slot is refunded after its batch settled. */
  lemma NoRefundAfterSettle(cfg: Config, s: Sys, calls: seq<Call>, i: nat, j: nat, batch: nat, slot: nat)
    requires IsInitial(s) && i < j < |calls| && SettlesAt(cfg, s, calls, i, batch)
    ensures !RefundsAt(cfg, s, calls, j, batch, slot)
  {
    SettleMarks(cfg, s, calls, i, batch);
    PoolOnlyMovesOn(cfg, s, calls, i + 1, j);
    if RefundsAt(cfg, s, calls, j, batch, slot) {
      RefundMarks(cfg, s, calls, j, batch, slot);
    }
  }

  lemma NoSecondSettle(cfg: Config, s: Sys, calls: seq<Call>, i: nat, j: nat, batch: nat)
    requires IsInitial(s) && i < j < |calls| && SettlesAt(cfg, s, calls, i, batch)
    ensures !SettlesAt(cfg, s, calls, j, batch)
  {
    SettleMarks(cfg, s, calls, i, batch);
    PoolOnlyMovesOn(cfg, s, calls, i + 1, j);
    if SettlesAt(cfg, s, calls, j, batch) {
      SettleMarks(cfg, s, calls, j, batch);
    }
  }

  lemma NoSecondRefund(cfg: Config, s: Sys, calls: seq<Call>, i: nat, j: nat, batch: nat, slot: nat)
    requires IsInitial(s) && i < j < |calls| && RefundsAt(cfg, s, calls, i, batch, slot)
    ensures !RefundsAt(cfg, s, calls, j, batch, slot)
  {
    RefundMarks(cfg, s, calls, i, batch, slot);
    PoolOnlyMovesOn(cfg, s, calls, i + 1, j);
    if RefundsAt(cfg, s, calls, j, batch, slot) {
      RefundMarks(cfg, s, calls, j, batch, slot);
    }
  }

  // ---- deadlines ---------------------------------------------------------------------------------------

  lemma DeadlineAppears(cfg: Config, s: Sys, c: Call, batch: nat)
    requires BatchInv(s.amm, s.core.spent)
    requires batch !in s.amm.deadlines && batch in Next(cfg, s, c).amm.deadlines
    ensures c.Submit? && Apply(cfg, s, c).Some? && batch == s.amm.batchSeq && OrderCount(s.amm, batch) == 0
    ensures Next(cfg, s, c).amm.deadlines[batch] == c.ledger + 100
  {
    if c.Submit? && Apply(cfg, s, c).Some? {
      SubmitEffect(cfg, World(s.core, s.amm), c.ledger, c.submitter, c.proof, c.encOrder, c.nfIn, c.encOrderHash,
                   c.root);
    } else if c.Settle? && Apply(cfg, s, c).Some? {
      SettleEffect(cfg, World(s.core, s.amm), c.batch, c.proof, c.outputs, c.postCm, c.postEnc);
    } else if c.Refund? && Apply(cfg, s, c).Some? {
      RefundEffect(cfg, World(s.core, s.amm), c.ledger, c.batch, c.slot, c.proof, c.root, c.cmRefund, c.ct);
    } else {
      OtherCallsStepBatches(cfg, s, c);
    }
  }

  lemma OtherCallsStepBatches(cfg: Config, s: Sys, c: Call)
    requires (!c.Submit? && !c.Settle? && !c.Refund?) || Apply(cfg, s, c).None?
    ensures SameBatches(s.amm, Next(cfg, s, c).amm)
  {
    if Apply(cfg, s, c).Some? {
      OtherCallsKeepBatches(cfg, s, c);
    }
  }

  /** A stored deadline is the ledger of the call that opened the batch, plus 100. */
  lemma {:induction false} DeadlineIsFromFirstOrder(cfg: Config, s: Sys, calls: seq<Call>, n: nat, batch: nat)
    returns (i: nat)
    requires IsInitial(s) && n <= |calls| && batch in At(cfg, s, calls, n).amm.deadlines
    ensures i < n && OpensAt(cfg, s, calls, i, batch)
    ensures At(cfg, s, calls, n).amm.deadlines[batch] == calls[i].ledger + 100
    decreases n
  {
    AtStep(cfg, s, calls, n - 1);
    BatchesStayWellFormed(cfg, s, calls[..n - 1]);
    var before := At(cfg, s, calls, n - 1);
    if batch in before.amm.deadlines {
      i := DeadlineIsFromFirstOrder(cfg, s, calls, n - 1, batch);
      NextIsLater(cfg, before, calls[n - 1]);
    } else {
      DeadlineAppears(cfg, before, calls[n - 1], batch);
      i := n - 1;
    }
  }

  /** Every refund comes strictly more than 100 ledgers after the call that took slot 0 of its batch. */
  lemma RefundsComeAfterTheDeadline(cfg: Config, s: Sys, calls: seq<Call>, j: nat, batch: nat, slot: nat)
    returns (i: nat)
    requires IsInitial(s) && RefundsAt(cfg, s, calls, j, batch, slot)
    ensures i < j && OpensAt(cfg, s, calls, i, batch) && calls[j].ledger > calls[i].ledger + 100
  {
    RefundMarks(cfg, s, calls, j, batch, slot);
    BatchesStayWellFormed(cfg, s, calls[..j]);
    i := DeadlineIsFromFirstOrder(cfg, s, calls, j, batch);
  }

  // ---- settle or refund -----------------------------------------------------------------------------------

  /** No order counts as both settled and refunded. */
  predicate Exclusive(amm: Amm) {
    forall o :: o in amm.refunded ==> o.0 !in amm.settled
  }

  predicate Unrefunded(amm: Amm, batch: nat) {
    forall o :: o in amm.refunded ==> o.0 != batch
  }

  /** If the call is a settlement that succeeds, no order of its batch is marked refunded. */
  predicate FindsUnrefunded(cfg: Config, s: Sys, c: Call) {
    c.Settle? && Apply(cfg, s, c).Some? ==> Unrefunded(s.amm, c.batch)
  }

  ghost predicate SettledUnrefunded(cfg: Config, s: Sys, calls: seq<Call>, i: nat)
    requires i < |calls|
  {
    FindsUnrefunded(cfg, At(cfg, s, calls, i), calls[i])
  }

  lemma StepExclusiveIff(cfg: Config, s: Sys, c: Call)
    requires BatchInv(s.amm, s.core.spent)
    ensures Exclusive(Next(cfg, s, c).amm) <==> Exclusive(s.amm) && FindsUnrefunded(cfg, s, c)
  {
    if c.Submit? && Apply(cfg, s, c).Some? {
      SubmitEffect(cfg, World(s.core, s.amm), c.ledger, c.submitter, c.proof, c.encOrder, c.nfIn, c.encOrderHash,
                   c.root);
    } else if c.Settle? && Apply(cfg, s, c).Some? {
      SettleEffect(cfg, World(s.core, s.amm), c.batch, c.proof, c.outputs, c.postCm, c.postEnc);
      SettleExclusiveIff(s.amm, Next(cfg, s, c).amm, c.batch);
    } else if c.Refund? && Apply(cfg, s, c).Some? {
      RefundEffect(cfg, World(s.core, s.amm), c.ledger, c.batch, c.slot, c.proof, c.root, c.cmRefund, c.ct);
      RefundExclusiveIff(s.amm, Next(cfg, s, c).amm, (c.batch, c.slot));
    } else {
      OtherCallsStepBatches(cfg, s, c);
    }
  }

  lemma SettleExclusiveIff(a: Amm, b: Amm, batch: nat)
    requires b.settled == a.settled + {batch} && b.refunded == a.refunded
    ensures Exclusive(b) <==> Exclusive(a) && Unrefunded(a, batch)
  {
    assert forall o :: o in b.refunded <==> o in a.refunded;
  }

  lemma RefundExclusiveIff(a: Amm, b: Amm, order: (nat, nat))
    requires b.settled == a.settled && b.refunded == a.refunded + {order} && order.0 !in a.settled
    ensures Exclusive(b) <==> Exclusive(a)
  {
    assert forall o :: o in a.refunded ==> o in b.refunded;
  }

  lemma CallKeepsExclusive(cfg: Config, s: Sys, calls: seq<Call>, i: nat)
    requires IsInitial(s) && i < |calls| && Exclusive(At(cfg, s, calls, i).amm) && SettledUnrefunded(cfg, s, calls, i)
    ensures Exclusive(At(cfg, s, calls, i + 1).amm)
  {
    BatchesStayWellFormed(cfg, s, calls[..i]);
    AtStep(cfg, s, calls, i);
    StepExclusiveIff(cfg, At(cfg, s, calls, i), calls[i]);
  }

  lemma {:induction false} UnrefundedSettlementsExclude(cfg: Config, s: Sys, calls: seq<Call>, n: nat)
    requires IsInitial(s) && n <= |calls|
    requires forall i :: 0 <= i < n ==> SettledUnrefunded(cfg, s, calls, i)
    ensures Exclusive(At(cfg, s, calls, n).amm)
  {
    if n > 0 {
      UnrefundedSettlementsExclude(cfg, s, calls, n - 1);
      assert SettledUnrefunded(cfg, s, calls, n - 1);
      CallKeepsExclusive(cfg, s, calls, n - 1);
    }
  }

  lemma SettlingRefundedBreaks(cfg: Config, s: Sys, calls: seq<Call>, i: nat, batch: nat, slot: nat)
    requires IsInitial(s) && SettlesAt(cfg, s, calls, i, batch) && (batch, slot) in At(cfg, s, calls, i).amm.refunded
    ensures !Exclusive(After(cfg, s, calls).amm)
  {
    SettleMarks(cfg, s, calls, i, batch);
    PoolOnlyMovesOn(cfg, s, calls, i + 1, |calls|);
    assert calls[..|calls|] == calls;
    var order := (batch, slot);
    assert order in After(cfg, s, calls).amm.refunded && order.0 in After(cfg, s, calls).amm.settled;
  }

  /**
   * Over any run, settlement and refund exclude each other exactly when every settlement that succeeded found its
   * batch unrefunded.
   */
  lemma ExclusiveIff(cfg: Config, s: Sys, calls: seq<Call>)
    requires IsInitial(s)
    ensures Exclusive(After(cfg, s, calls).amm)
            <==> forall i :: 0 <= i < |calls| ==> SettledUnrefunded(cfg, s, calls, i)
  {
    if i: nat :| i < |calls| && !SettledUnrefunded(cfg, s, calls, i) {
      var o :| o in At(cfg, s, calls, i).amm.refunded && o.0 == calls[i].batch;
      SettlingRefundedBreaks(cfg, s, calls, i, o.0, o.1);
    } else {
      UnrefundedSettlementsExclude(cfg, s, calls, |calls|);
      assert calls[..|calls|] == calls;
    }
  }
}
