/** Which error each entry point answers with: the first of its checks that fails, as a table of the checks in order. */
module Refusals {
  import opened Words
  import opened CoreState
  import opened AmmState
  import opened LendState
  import BigEndian
  import AspGate
  import LendCircuit

  /** The error of a check that fails. */
  function Unless<E>(passes: bool, error: E): Option<E> {
    if passes then None else Some(error)
  }

  /** The error of the first of two checks that fails. */
  function Then<E>(first: Option<E>, next: Option<E>): Option<E> {
    if first.Some? then first else next
  }

  /** The call answers with that error, or succeeds when there is none. */
  predicate Answers<T, E(==)>(r: Result<T, E>, refusal: Option<E>) {
    match refusal
    case Some(e) => r.Err? && r.error == e
    case None => r.Ok?
  }

  function Bits(core: Core, caller: Address): bv32 {
    if caller in core.modules then core.modules[caller] else 0
  }

  // ---- the entry gate --------------------------------------------------------------------------

  /** The path has a side for each sibling, and then folds the leaf to the root. */
  function FoldRefusal(h: Hash2, leaf: BigEndian.Bytes32, path: seq<BigEndian.Bytes32>, sides: seq<nat>,
                       root: BigEndian.Bytes32, mismatch: AspGate.AspError): Option<AspGate.AspError>
  {
    if |path| != |sides| then Some(AspGate.BadProof)
    else Unless(AspGate.ByteFold(h, leaf, path, sides) == root, mismatch)
  }

  /** The lengths of both blocked paths are checked before either root is compared. */
  lemma EntryRefusals(h: Hash2, history: seq<AspGate.Pair>, p: AspGate.MembershipProof)
    ensures Answers(AspGate.EntryResult(h, history, p),
                    Then(Unless((p.approvedRoot, p.blockedRoot) in history, AspGate.UnknownRoot),
                    Then(FoldRefusal(h, p.credentialLeaf, p.approvedPath, p.approvedIdx, p.approvedRoot,
                                     AspGate.NotApproved),
                    Then(Unless(BigEndian.FromBe(p.blockedLowerLeaf) < BigEndian.FromBe(p.credentialLeaf)
                                < BigEndian.FromBe(p.blockedUpperLeaf), AspGate.IsBlocked),
                    Then(Unless(|p.blockedLowerPath| == |p.blockedLowerIdx|
                                && |p.blockedUpperPath| == |p.blockedUpperIdx|, AspGate.BadProof),
                    Then(FoldRefusal(h, p.blockedLowerLeaf, p.blockedLowerPath, p.blockedLowerIdx, p.blockedRoot,
                                     AspGate.IsBlocked),
                         FoldRefusal(h, p.blockedUpperLeaf, p.blockedUpperPath, p.blockedUpperIdx, p.blockedRoot,
                                     AspGate.IsBlocked)))))))
  {
    BigEndian.LessIsNumeric(p.blockedLowerLeaf, p.credentialLeaf);
    BigEndian.LessIsNumeric(p.credentialLeaf, p.blockedUpperLeaf);
  }

  // ---- the core --------------------------------------------------------------------------------

  function InsertRefusal(cfg: Config, taken: nat, ct: Bytes): Option<VeilError> {
    Then(Unless(ct != [], VeilError.MissingAuditorCt), Unless(taken < Pow2(cfg.depth), TreeFull))
  }

  function SpendRefusal(spent: set<nat>, locked: set<nat>, nf: nat): Option<VeilError> {
    Then(Unless(nf !in spent, AlreadySpent), Unless(nf !in locked, IsLocked))
  }

  function ProofRefusal(answer: Result<bool, VeilError>): Option<VeilError> {
    match answer
    case Err(e) => Some(e)
    case Ok(accepted) => Unless(accepted, VeilError.BadProof)
  }

  /** A number of 0 names no note. */
  function IfSet(x: nat, refusal: Option<VeilError>): Option<VeilError> {
    if x == 0 then None else refusal
  }

  function Count(x: nat): nat {
    if x == 0 then 0 else 1
  }

  lemma ModuleRefusals(cfg: Config, core: Core, caller: Address, cm: nat, ct: Bytes, nf: nat)
    ensures Answers(InsertCommitment(cfg, core, caller, cm, ct),
                    Then(Unless(Bits(core, caller) & 1 != 0, Unauthorized), InsertRefusal(cfg, |core.leaves|, ct)))
    ensures Answers(Spend(core, caller, nf),
                    Then(Unless(Bits(core, caller) & 2 != 0, Unauthorized), SpendRefusal(core.spent, core.locked, nf)))
    ensures Answers(Lock(core, caller, nf),
                    Then(Unless(Bits(core, caller) & 4 != 0, Unauthorized),
                         Then(Unless(nf !in core.spent, AlreadySpent), Unless(nf !in core.locked, AlreadyLocked))))
    ensures Answers(Unlock(core, caller, nf),
                    Then(Unless(Bits(core, caller) & 4 != 0, Unauthorized), Unless(nf in core.locked, NotLocked)))
  {}

  lemma DepositRefusals(cfg: Config, core: Core, aspAccepts: bool, proof: Proof, pub: DepositPublic, ct: Bytes)
    ensures Answers(DepositNote(cfg, core, aspAccepts, proof, pub, ct),
                    Then(Unless(aspAccepts, AspRejected),
                    Then(ProofRefusal(cfg.verify(VkId.Deposit, proof, [pub.cm, pub.publicAmount, pub.aspApprovedRoot,
                                                                       pub.aspBlockedRoot])),
                         InsertRefusal(cfg, |core.leaves|, ct))))
  {}

  /** The second nullifier meets the first one among the spent, the second commitment the first one among the leaves. */
  lemma TransferRefusals(cfg: Config, core: Core, proof: Proof, pub: TransferPublic, cts: seq<Bytes>)
    ensures var n, spent := |core.leaves|, core.spent + if pub.nfIn0 == 0 then {} else {pub.nfIn0};
            var ct0, ct1 := if |cts| > 0 then cts[0] else [], if |cts| > 1 then cts[1] else [];
            Answers(TransferNotes(cfg, core, proof, pub, cts),
                    Then(Unless(pub.publicAmount == 0, InvalidPublicAmount),
                    Then(Unless(RootIsKnown(cfg, core, pub.root), VeilError.UnknownRoot),
                    Then(ProofRefusal(cfg.verify(VkId.Transfer, proof, [pub.root, pub.nfIn0, pub.nfIn1, pub.cmOut0,
                                                                        pub.cmOut1, pub.publicAmount])),
                    Then(IfSet(pub.nfIn0, SpendRefusal(core.spent, core.locked, pub.nfIn0)),
                    Then(IfSet(pub.nfIn1, SpendRefusal(spent, core.locked, pub.nfIn1)),
                    Then(IfSet(pub.cmOut0, InsertRefusal(cfg, n, ct0)),
                         IfSet(pub.cmOut1, InsertRefusal(cfg, n + Count(pub.cmOut0), ct1)))))))))
  {}

  lemma WithdrawRefusals(cfg: Config, core: Core, proof: Proof, pub: WithdrawPublic, ct: Bytes)
    ensures var spent := core.spent + if pub.nfIn0 == 0 then {} else {pub.nfIn0};
            Answers(WithdrawNotes(cfg, core, proof, pub, ct),
                    Then(Unless(pub.publicAmount != 0, InvalidPublicAmount),
                    Then(Unless(RootIsKnown(cfg, core, pub.root), VeilError.UnknownRoot),
                    Then(ProofRefusal(cfg.verify(VkId.Withdraw, proof, [pub.root, pub.nfIn0, pub.nfIn1, pub.cmChange,
                                                                        pub.publicAmount, pub.assetId,
                                                                        pub.recipientHash])),
                    Then(IfSet(pub.nfIn0, SpendRefusal(core.spent, core.locked, pub.nfIn0)),
                    Then(IfSet(pub.nfIn1, SpendRefusal(spent, core.locked, pub.nfIn1)),
                         IfSet(pub.cmChange, InsertRefusal(cfg, |core.leaves|, ct))))))))
  {}

  // ---- the pool ----------------------------------------------------------------------------------

  /** The pool may spend the nullifier. */
  predicate PoolSpends(w: World, nf: nat) {
    Bits(w.core, w.amm.addr) & 2 != 0 && nf !in w.core.spent && nf !in w.core.locked
  }

  /** The pool may insert a leaf once this many are taken. */
  predicate PoolInserts(cfg: Config, w: World, taken: nat, ct: Bytes) {
    Bits(w.core, w.amm.addr) & 1 != 0 && ct != [] && taken < Pow2(cfg.depth)
  }

  lemma SubmitRefusals(cfg: Config, w: World, ledger: nat, submitter: Address, proof: Proof, encOrder: Bytes,
                       nfIn: nat, encOrderHash: nat, root: nat)
    ensures var slot := OrderCount(w.amm, w.amm.batchSeq);
            Answers(SubmitOrder(cfg, w, ledger, submitter, proof, encOrder, nfIn, encOrderHash, root),
                    Then(Unless(RootIsKnown(cfg, w.core, root), AmmError.UnknownRoot),
                    Then(Unless(cfg.verify(VkId.Swap, proof, [root, nfIn, encOrderHash, w.amm.commPk]) == Ok(true),
                                AmmError.BadProof),
                    Then(Unless(PoolSpends(w, nfIn), AmmError.CoreCallFailed),
                    Then(Unless(slot < w.amm.k, BatchFull),
                         Unless(slot > 0 || ledger + 100 < 0x1_0000_0000, Trap))))))
  {}

  ghost predicate SettleProved(cfg: Config, amm: Amm, batch: nat, proof: Proof, outputs: seq<Output>, preCm: nat,
                               postCm: nat)
  {
    exists v :: IsSettleVector(amm, batch, outputs, preCm, postCm, v)
                && cfg.verify(VkId.BatchSettle, proof, v) == Ok(true)
  }

  lemma SettleProvedIff(cfg: Config, amm: Amm, batch: nat, proof: Proof, outputs: seq<Output>, preCm: nat, postCm: nat)
    requires BatchStored(amm, batch) && |outputs| == amm.k
    ensures SettleProved(cfg, amm, batch, proof, outputs, preCm, postCm)
            <==> cfg.verify(VkId.BatchSettle, proof, SettleInputs(amm, batch, outputs, preCm, postCm)) == Ok(true)
  {
    var u := SettleInputs(amm, batch, outputs, preCm, postCm);
    SettleInputsAre(amm, batch, outputs, preCm, postCm, u);
    if SettleProved(cfg, amm, batch, proof, outputs, preCm, postCm) {
      var v :| IsSettleVector(amm, batch, outputs, preCm, postCm, v)
               && cfg.verify(VkId.BatchSettle, proof, v) == Ok(true);
      SettleInputsAre(amm, batch, outputs, preCm, postCm, v);
    }
  }

  lemma SettleRefusals(cfg: Config, w: World, batch: nat, proof: Proof, outputs: seq<Output>, postCm: nat,
                       postEnc: Bytes)
    ensures var preCm := if w.amm.reserves.Some? then w.amm.reserves.value.reserveCm else 0;
            Answers(SettleBatch(cfg, w, batch, proof, outputs, postCm, postEnc),
                    Then(Unless(batch !in w.amm.settled, AlreadySettled),
                    Then(Unless(batch == w.amm.batchSeq, UnknownOrder),
                    Then(Unless(OrderCount(w.amm, batch) >= w.amm.k, BatchNotFull),
                    Then(Unless(|outputs| == w.amm.k, WrongOutputCount),
                    Then(Unless(w.amm.reserves.Some?, ReserveMismatch),
                    Then(Unless(BatchStored(w.amm, batch), Trap),
                    Then(Unless(HaveOutputCts(outputs), AmmError.MissingAuditorCt),
                    Then(Unless(SettleProved(cfg, w.amm, batch, proof, outputs, preCm, postCm), AmmError.BadProof),
                         Unless(outputs == [] || (Bits(w.core, w.amm.addr) & 1 != 0
                                                  && |w.core.leaves| + |outputs| <= Pow2(cfg.depth)),
                                AmmError.CoreCallFailed))))))))))
  {
    InsertAllSucceedsIff(cfg, w.core, w.amm.addr, outputs);
    if |outputs| == w.amm.k && w.amm.reserves.Some? && BatchStored(w.amm, batch) {
      SettleProvedIff(cfg, w.amm, batch, proof, outputs, w.amm.reserves.value.reserveCm, postCm);
    }
  }

  lemma AddLiquidityRefusals(cfg: Config, w: World, proof: Proof, root: nat, nf0: nat, nf1: nat, lpCommit: nat,
                             ct: Bytes, postCm: nat, postEnc: Bytes)
    ensures var preCm := if w.amm.reserves.Some? then w.amm.reserves.value.reserveCm else 0;
            Answers(AddLiquidityNotes(cfg, w, proof, root, nf0, nf1, lpCommit, ct, postCm, postEnc),
                    Then(Unless(RootIsKnown(cfg, w.core, root), AmmError.UnknownRoot),
                    Then(Unless(w.amm.reserves.Some?, ReserveMismatch),
                    Then(Unless(cfg.verify(VkId.AddLiquidity, proof, [root, nf0, nf1, lpCommit, preCm, postCm])
                                == Ok(true), AmmError.BadProof),
                         Unless((nf0 == 0 || PoolSpends(w, nf0)) && (nf1 == 0 || (PoolSpends(w, nf1) && nf1 != nf0))
                                && PoolInserts(cfg, w, |w.core.leaves|, ct), AmmError.CoreCallFailed)))))
  {}

  lemma RemoveLiquidityRefusals(cfg: Config, w: World, proof: Proof, root: nat, lpNf: nat, cm0: nat, cm1: nat,
                                ct0: Bytes, ct1: Bytes, postCm: nat, postEnc: Bytes, lpCommit: nat)
    ensures var n, preCm := |w.core.leaves|, if w.amm.reserves.Some? then w.amm.reserves.value.reserveCm else 0;
            Answers(RemoveLiquidityNotes(cfg, w, proof, root, lpNf, cm0, cm1, ct0, ct1, postCm, postEnc, lpCommit),
                    Then(Unless(lpCommit in w.amm.lps, UnknownLp),
                    Then(Unless(RootIsKnown(cfg, w.core, root), AmmError.UnknownRoot),
                    Then(Unless(w.amm.reserves.Some?, ReserveMismatch),
                    Then(Unless(cfg.verify(VkId.RemoveLiquidity, proof, [root, lpNf, cm0, cm1, preCm, postCm])
                                == Ok(true), AmmError.BadProof),
                         Unless(PoolSpends(w, lpNf) && (cm0 == 0 || PoolInserts(cfg, w, n, ct0))
                                && (cm1 == 0 || PoolInserts(cfg, w, n + Count(cm0), ct1)),
                                AmmError.CoreCallFailed))))))
  {}

  lemma RefundRefusals(cfg: Config, w: World, ledger: nat, batch: nat, slot: nat, proof: Proof, root: nat, cm: nat,
                       ct: Bytes)
    ensures var deadline := if batch in w.amm.deadlines then w.amm.deadlines[batch] else 0;
            var nf := if (batch, slot) in w.amm.orders then w.amm.orders[(batch, slot)].nfIn else 0;
            Answers(RefundOrder(cfg, w, ledger, batch, slot, proof, root, cm, ct),
                    Then(Unless(batch !in w.amm.settled, AlreadySettled),
                    Then(Unless(ledger > deadline, NotExpired),
                    Then(Unless((batch, slot) in w.amm.orders, UnknownOrder),
                    Then(Unless((batch, slot) !in w.amm.refunded, AlreadyRefunded),
                    Then(Unless(ct != [], AmmError.MissingAuditorCt),
                    Then(Unless(RootIsKnown(cfg, w.core, root), AmmError.UnknownRoot),
                    Then(Unless(cfg.verify(VkId.SettleOrRefund, proof, [batch, nf, cm, root, deadline]) == Ok(true),
                                AmmError.BadProof),
                         Unless(PoolInserts(cfg, w, |w.core.leaves|, ct), AmmError.CoreCallFailed)))))))))
  {}

  // ---- lending ---------------------------------------------------------------------------------------

  /** A missing report, then one that is older than the staleness bound. */
  function PriceRefusal(lend: Lend, feed: Feed, asset: Asset): Option<LendError> {
    Then(Unless(feed.last(asset).Some?, NoPrice),
         if feed.last(asset).None? then None
         else Unless(feed.now <= feed.last(asset).value.timestamp + lend.staleness, StaleOracle))
  }

  function Reported(feed: Feed, asset: Asset): int {
    if feed.last(asset).Some? then feed.last(asset).value.price else 0
  }

  lemma OpenLoanRefusals(cfg: Config, w: LendWorld, feed: Feed, proof: Proof, collatNf: nat, borrowCm: nat, ct: Bytes,
                         collatAsset: Asset, borrowAsset: Asset, root: nat, claim: OracleClaim)
    ensures Answers(OpenLoan(cfg, w, feed, proof, collatNf, borrowCm, ct, collatAsset, borrowAsset, root, claim),
                    Then(Unless(ct != [], LendError.MissingAuditorCt),
                    Then(Unless(RootIsKnown(cfg, w.core, root), LendError.UnknownRoot),
                    Then(PriceRefusal(w.lend, feed, collatAsset),
                    Then(PriceRefusal(w.lend, feed, borrowAsset),
                    Then(Unless(Reported(feed, collatAsset) == claim.oraclePrice
                                && Reported(feed, borrowAsset) == claim.borrowPrice, OracleMismatch),
                    Then(Unless(cfg.verify(VkId.Lend, proof,
                                           [root, collatNf, borrowCm, LendCircuit.I128AsField(claim.oraclePrice),
                                            claim.oracleDecimals, w.lend.ltvBps,
                                            LendCircuit.I128AsField(claim.borrowPrice)]) == Ok(true),
                                LendError.BadProof),
                         Unless(&& Bits(w.core, w.lend.addr) & 4 != 0 && Bits(w.core, w.lend.addr) & 1 != 0
                                && collatNf !in w.core.spent && collatNf !in w.core.locked
                                && |w.core.leaves| < Pow2(cfg.depth), LendError.CoreCallFailed))))))))
  {}

  lemma RepayRefusals(cfg: Config, w: LendWorld, proof: Proof, repayNf: nat, id: nat, root: nat)
    ensures var closed, cm, nf := id in w.lend.loans && w.lend.loans[id].closed,
                                  if id in w.lend.loans then w.lend.loans[id].borrowCm else 0,
                                  if id in w.lend.loans then w.lend.loans[id].collatNf else 0;
            Answers(LendState.Repay(cfg, w, proof, repayNf, id, root),
                    Then(Unless(id in w.lend.loans, LoanNotFound),
                    Then(Unless(!closed, AlreadyClosed),
                    Then(Unless(RootIsKnown(cfg, w.core, root), LendError.UnknownRoot),
                    Then(Unless(cfg.verify(VkId.Repay, proof, [root, repayNf, cm]) == Ok(true), LendError.BadProof),
                         Unless(&& Bits(w.core, w.lend.addr) & 2 != 0 && Bits(w.core, w.lend.addr) & 4 != 0
                                && repayNf !in w.core.spent && repayNf !in w.core.locked && nf in w.core.locked,
                                LendError.CoreCallFailed))))))
  {}

  lemma LiquidateRefusals(w: LendWorld, feed: Feed, id: nat, asset: Asset)
    requires Disjoint(w.core)
    ensures var closed, nf := id in w.lend.loans && w.lend.loans[id].closed,
                              if id in w.lend.loans then w.lend.loans[id].collatNf else 0;
            var now := Reported(feed, asset) * 10000;
            var threshold := if id in w.lend.loans then w.lend.loans[id].openOraclePrice * w.lend.loans[id].ltvMaxBps
                             else 0;
            Answers(Liquidate(w, feed, id, asset),
                    Then(Unless(id in w.lend.loans, LoanNotFound),
                    Then(Unless(!closed, AlreadyClosed),
                    Then(PriceRefusal(w.lend, feed, asset),
                    Then(Unless(IsI128(now) && IsI128(threshold), Overflow),
                    Then(Unless(now < threshold, Healthy),
                         Unless(&& Bits(w.core, w.lend.addr) & 4 != 0 && Bits(w.core, w.lend.addr) & 2 != 0
                                && nf in w.core.locked, LendError.CoreCallFailed)))))))
  {}
}
