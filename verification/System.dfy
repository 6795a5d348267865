/**
 * The deployed contracts as one transition system: the core, the pool and the lending module, driven by any sequence
 * of calls.
 */
module System {
  import opened Words
  import opened CoreState
  import opened AmmState
  import opened LendState

  datatype Sys = Sys(core: Core, amm: Amm, lend: Lend)

  datatype Call =
    | Deposit(aspAccepts: bool, proof: Proof, depositPub: DepositPublic, ct: Bytes)
    | Transfer(proof: Proof, transferPub: TransferPublic, cts: seq<Bytes>)
    | Withdraw(proof: Proof, withdrawPub: WithdrawPublic, ct: Bytes)
    | RegisterModule(target: Address, perms: bv32)
    | ModuleInsert(caller: Address, cm: nat, ct: Bytes)
    | ModuleSpend(caller: Address, nf: nat)
    | ModuleLock(caller: Address, nf: nat)
    | ModuleUnlock(caller: Address, nf: nat)
    | StartReserves(reserveCm: nat, encData: Bytes)
    | Submit(ledger: nat, submitter: Address, proof: Proof, encOrder: Bytes, nfIn: nat, encOrderHash: nat, root: nat)
    | Settle(batch: nat, proof: Proof, outputs: seq<Output>, postCm: nat, postEnc: Bytes)
    | AddLp(proof: Proof, root: nat, nfIn0: nat, nfIn1: nat, lpCommit: nat, ct: Bytes, postCm: nat, postEnc: Bytes)
    | RemoveLp(proof: Proof, root: nat, lpNf: nat, cmOut0: nat, cmOut1: nat, ct0: Bytes, ct1: Bytes, postCm: nat,
               postEnc: Bytes, lpCommit: nat)
    | Refund(ledger: nat, batch: nat, slot: nat, proof: Proof, root: nat, cmRefund: nat, ct: Bytes)
    | Borrow(feed: Feed, proof: Proof, collatNf: nat, borrowCm: nat, ct: Bytes, collatAsset: Asset, borrowAsset: Asset,
             root: nat, claim: OracleClaim)
    | PayBack(proof: Proof, repayNf: nat, loan: nat, root: nat)
    | Seizure(feed: Feed, loan: nat, asset: Asset)

  /** Before any call; the pool and the lending module have different addresses. */
  predicate IsInitial(s: Sys) {
    && s.core == Core([], {}, {}, map[])
    && s.amm == Amm(s.amm.addr, s.amm.commPk, s.amm.k, 0, map[], map[], {}, map[], {}, None, {})
    && s.lend == Lend.Lend(s.lend.addr, s.lend.ltvBps, s.lend.staleness, 0, map[])
    && s.amm.addr != s.lend.addr
    && s.amm.k < TWO_32 && s.lend.ltvBps < TWO_32
  }

  /** The administrator gives LOCK to the lending module only, and nobody speaks in a contract's name. */
  predicate Permitted(s: Sys, c: Call) {
    match c
    case RegisterModule(target, perms) => target == s.lend.addr || perms & PERM_LOCK == 0
    case ModuleInsert(caller, _, _) => caller != s.amm.addr && caller != s.lend.addr
    case ModuleSpend(caller, _) => caller != s.amm.addr && caller != s.lend.addr
    case ModuleLock(caller, _) => caller != s.amm.addr && caller != s.lend.addr
    case ModuleUnlock(caller, _) => caller != s.amm.addr && caller != s.lend.addr
    case _ => true
  }

  predicate AllPermitted(s: Sys, calls: seq<Call>) {
    forall i :: 0 <= i < |calls| ==> Permitted(s, calls[i])
  }

  function OnCore<T>(s: Sys, r: Result<(Core, T), VeilError>): Option<Sys> {
    if r.Ok? then Some(s.(core := r.value.0)) else None
  }

  function OnPool<T>(s: Sys, r: Result<(World, T), AmmError>): Option<Sys> {
    if r.Ok? then Some(s.(core := r.value.0.core, amm := r.value.0.amm)) else None
  }

  function OnLend<T>(s: Sys, r: Result<(LendWorld, T), LendError>): Option<Sys> {
    if r.Ok? then Some(s.(core := r.value.0.core, lend := r.value.0.lend)) else None
  }

  function ApplyCore(cfg: Config, s: Sys, c: Call): Option<Sys> {
    match c
    case Deposit(aspAccepts, proof, pub, ct) => OnCore(s, DepositNote(cfg, s.core, aspAccepts, proof, pub, ct))
    case Transfer(proof, pub, cts) => OnCore(s, TransferNotes(cfg, s.core, proof, pub, cts))
    case Withdraw(proof, pub, ct) => OnCore(s, WithdrawNotes(cfg, s.core, proof, pub, ct))
    case RegisterModule(target, perms) => Some(s.(core := s.core.(modules := s.core.modules[target := perms])))
    case ModuleInsert(caller, cm, ct) => OnCore(s, InsertCommitment(cfg, s.core, caller, cm, ct))
    case ModuleSpend(caller, nf) => OnCore(s, Spend(s.core, caller, nf))
    case ModuleLock(caller, nf) => OnCore(s, Lock(s.core, caller, nf))
    case ModuleUnlock(caller, nf) => OnCore(s, Unlock(s.core, caller, nf))
    case _ => None
  }

  function ApplyPool(cfg: Config, s: Sys, c: Call): Option<Sys> {
    var w := World(s.core, s.amm);
    match c
    case StartReserves(cm, data) => OnPool(s, InitializeReserves(w, cm, data))
    case Submit(ledger, submitter, proof, encOrder, nfIn, encOrderHash, root) =>
      OnPool(s, SubmitOrder(cfg, w, ledger, submitter, proof, encOrder, nfIn, encOrderHash, root))
    case Settle(batch, proof, outputs, postCm, postEnc) =>
      OnPool(s, SettleBatch(cfg, w, batch, proof, outputs, postCm, postEnc))
    case AddLp(proof, root, nfIn0, nfIn1, lpCommit, ct, postCm, postEnc) =>
      OnPool(s, AddLiquidityNotes(cfg, w, proof, root, nfIn0, nfIn1, lpCommit, ct, postCm, postEnc))
    case RemoveLp(proof, root, lpNf, cmOut0, cmOut1, ct0, ct1, postCm, postEnc, lpCommit) =>
      OnPool(s, RemoveLiquidityNotes(cfg, w, proof, root, lpNf, cmOut0, cmOut1, ct0, ct1, postCm, postEnc, lpCommit))
    case Refund(ledger, batch, slot, proof, root, cmRefund, ct) =>
      OnPool(s, RefundOrder(cfg, w, ledger, batch, slot, proof, root, cmRefund, ct))
    case _ => None
  }

  function ApplyLend(cfg: Config, s: Sys, c: Call): Option<Sys> {
    var w := LendWorld(s.core, s.lend);
    match c
    case Borrow(feed, proof, collatNf, borrowCm, ct, collatAsset, borrowAsset, root, claim) =>
      OnLend(s, OpenLoan(cfg, w, feed, proof, collatNf, borrowCm, ct, collatAsset, borrowAsset, root, claim))
    case PayBack(proof, repayNf, loan, root) => OnLend(s, LendState.Repay(cfg, w, proof, repayNf, loan, root))
    case Seizure(feed, loan, asset) => OnLend(s, Liquidate(w, feed, loan, asset))
    case _ => None
  }

  predicate IsPoolCall(c: Call) {
    c.StartReserves? || c.Submit? || c.Settle? || c.AddLp? || c.RemoveLp? || c.Refund?
  }

  predicate IsLendCall(c: Call) {
    c.Borrow? || c.PayBack? || c.Seizure?
  }

  /** The new state, or nothing when the call returns an error. */
  function Apply(cfg: Config, s: Sys, c: Call): Option<Sys> {
    if IsPoolCall(c) then ApplyPool(cfg, s, c)
    else if IsLendCall(c) then ApplyLend(cfg, s, c)
    else ApplyCore(cfg, s, c)
  }

  /** A call that returns an error is rolled back with its sub-calls. */
  function Next(cfg: Config, s: Sys, c: Call): Sys {
    var t := Apply(cfg, s, c);
    if t.Some? then t.value else s
  }

  function After(cfg: Config, s: Sys, calls: seq<Call>): Sys {
    if calls == [] then s
    else
      var n := |calls| - 1;
      Next(cfg, After(cfg, s, calls[..n]), calls[n])
  }

  /** The state before call i. */
  function At(cfg: Config, s: Sys, calls: seq<Call>, i: nat): Sys
    requires i <= |calls|
  {
    After(cfg, s, calls[..i])
  }

  predicate Succeeds(cfg: Config, s: Sys, calls: seq<Call>, i: nat)
    requires i < |calls|
  {
    Apply(cfg, At(cfg, s, calls, i), calls[i]).Some?
  }

  lemma AtStep(cfg: Config, s: Sys, calls: seq<Call>, i: nat)
    requires i < |calls|
    ensures At(cfg, s, calls, i + 1) == Next(cfg, At(cfg, s, calls, i), calls[i])
    ensures calls[..|calls|] == calls
  {
    assert calls[..i + 1][..i] == calls[..i];
  }

  lemma StepsTo(cfg: Config, s: Sys, calls: seq<Call>, i: nat, c: Call, after: Sys)
    requires i < |calls| && calls[i] == c && Next(cfg, At(cfg, s, calls, i), c) == after
    ensures At(cfg, s, calls, i + 1) == after
  {
    AtStep(cfg, s, calls, i);
  }

  // ---- what every call keeps of the core --------------------------------------------------

  predicate HaveCts(leaves: seq<Leaf>) {
    forall i :: 0 <= i < |leaves| ==> leaves[i].ct != []
  }

  /** Leaves are appended with a ciphertext, nullifiers are only added to SPENT, and SPENT stays clear of LOCKED. */
  predicate Grows(c: Core, d: Core) {
    && c.leaves <= d.leaves && c.spent <= d.spent
    && (HaveCts(c.leaves) ==> HaveCts(d.leaves))
    && (Disjoint(c) ==> Disjoint(d))
  }

  predicate SameLocks(c: Core, d: Core) {
    d.locked == c.locked && d.modules == c.modules
  }

  predicate GrowsOnly(c: Core, d: Core) {
    Grows(c, d) && SameLocks(c, d)
  }

  lemma InsertGrows(cfg: Config, c: Core, cm: nat, ct: Bytes)
    requires InsertInternal(cfg, c, cm, ct).Ok?
    ensures GrowsOnly(c, InsertInternal(cfg, c, cm, ct).value.0)
  {}

  lemma SpendGrows(c: Core, nf: nat)
    requires SpendInternal(c, nf).Ok?
    ensures GrowsOnly(c, SpendInternal(c, nf).value.0)
  {}

  lemma IfSetGrows(cfg: Config, c: Core, x: nat, ct: Bytes)
    ensures CoreState.SpendIfSet(c, x).Ok? ==> GrowsOnly(c, CoreState.SpendIfSet(c, x).value.0)
    ensures CoreState.InsertIfSet(cfg, c, x, ct).Ok? ==> GrowsOnly(c, CoreState.InsertIfSet(cfg, c, x, ct).value.0)
  {}

  lemma PoolIfSetGrows(cfg: Config, c: Core, caller: Address, x: nat, ct: Bytes)
    ensures PoolSpendIfSet(c, caller, x).Ok? ==> GrowsOnly(c, PoolSpendIfSet(c, caller, x).value.0)
    ensures PoolInsertIfSet(cfg, c, caller, x, ct).Ok? ==> GrowsOnly(c, PoolInsertIfSet(cfg, c, caller, x, ct).value.0)
  {}

  lemma {:induction false} InsertAllGrows(cfg: Config, c: Core, caller: Address, outputs: seq<Output>)
    requires InsertAll(cfg, c, caller, outputs).Ok?
    ensures GrowsOnly(c, InsertAll(cfg, c, caller, outputs).value.0)
    ensures InsertAll(cfg, c, caller, outputs).value.0.spent == c.spent
  {
    if outputs != [] {
      InsertAllGrows(cfg, c, caller, outputs[..|outputs| - 1]);
    }
  }

  lemma GrowsOnlyTransitive(c: Core, d: Core, e: Core)
    requires GrowsOnly(c, d) && GrowsOnly(d, e)
    ensures GrowsOnly(c, e)
  {}

  lemma TransferGrows(cfg: Config, c: Core, proof: Proof, pub: TransferPublic, cts: seq<Bytes>)
    requires TransferNotes(cfg, c, proof, pub, cts).Ok?
    ensures GrowsOnly(c, TransferNotes(cfg, c, proof, pub, cts).value.0)
  {
    var c1 := CoreState.SpendIfSet(c, pub.nfIn0).value.0;
    var c2 := CoreState.SpendIfSet(c1, pub.nfIn1).value.0;
    var c3 := CoreState.InsertIfSet(cfg, c2, pub.cmOut0, CtAt(cts, 0)).value.0;
    IfSetGrows(cfg, c, pub.nfIn0, []);
    IfSetGrows(cfg, c1, pub.nfIn1, []);
    IfSetGrows(cfg, c2, pub.cmOut0, CtAt(cts, 0));
    IfSetGrows(cfg, c3, pub.cmOut1, CtAt(cts, 1));
    GrowsOnlyTransitive(c, c1, c2);
    GrowsOnlyTransitive(c, c2, c3);
    GrowsOnlyTransitive(c, c3, TransferNotes(cfg, c, proof, pub, cts).value.0);
  }

  lemma WithdrawGrows(cfg: Config, c: Core, proof: Proof, pub: WithdrawPublic, ct: Bytes)
    requires WithdrawNotes(cfg, c, proof, pub, ct).Ok?
    ensures GrowsOnly(c, WithdrawNotes(cfg, c, proof, pub, ct).value.0)
  {
    var c1 := CoreState.SpendIfSet(c, pub.nfIn0).value.0;
    var c2 := CoreState.SpendIfSet(c1, pub.nfIn1).value.0;
    IfSetGrows(cfg, c, pub.nfIn0, []);
    IfSetGrows(cfg, c1, pub.nfIn1, []);
    IfSetGrows(cfg, c2, pub.cmChange, ct);
    GrowsOnlyTransitive(c, c1, c2);
    GrowsOnlyTransitive(c, c2, WithdrawNotes(cfg, c, proof, pub, ct).value.0);
  }

  lemma AddLpGrows(cfg: Config, c: Core, caller: Address, nfIn0: nat, nfIn1: nat, lpCommit: nat, ct: Bytes)
    requires PoolSpendIfSet(c, caller, nfIn0).Ok?
    requires PoolSpendIfSet(PoolSpendIfSet(c, caller, nfIn0).value.0, caller, nfIn1).Ok?
    ensures var c2 := PoolSpendIfSet(PoolSpendIfSet(c, caller, nfIn0).value.0, caller, nfIn1).value.0;
            var r := InsertCommitment(cfg, c2, caller, lpCommit, ct);
            r.Ok? ==> GrowsOnly(c, r.value.0)
  {
    var c1 := PoolSpendIfSet(c, caller, nfIn0).value.0;
    var c2 := PoolSpendIfSet(c1, caller, nfIn1).value.0;
    PoolIfSetGrows(cfg, c, caller, nfIn0, []);
    PoolIfSetGrows(cfg, c1, caller, nfIn1, []);
    GrowsOnlyTransitive(c, c1, c2);
  }

  lemma RemoveLpGrows(cfg: Config, c: Core, caller: Address, lpNf: nat, cmOut0: nat, cmOut1: nat, ct0: Bytes,
                      ct1: Bytes)
    requires Spend(c, caller, lpNf).Ok?
    requires PoolInsertIfSet(cfg, Spend(c, caller, lpNf).value.0, caller, cmOut0, ct0).Ok?
    ensures var c2 := PoolInsertIfSet(cfg, Spend(c, caller, lpNf).value.0, caller, cmOut0, ct0).value.0;
            var r := PoolInsertIfSet(cfg, c2, caller, cmOut1, ct1);
            r.Ok? ==> GrowsOnly(c, r.value.0)
  {
    var c1 := Spend(c, caller, lpNf).value.0;
    var c2 := PoolInsertIfSet(cfg, c1, caller, cmOut0, ct0).value.0;
    PoolIfSetGrows(cfg, c1, caller, cmOut0, ct0);
    PoolIfSetGrows(cfg, c2, caller, cmOut1, ct1);
    GrowsOnlyTransitive(c, c1, c2);
  }

  /** No pool call touches LOCKED or the permissions, and it leaves the lending module alone. */
  lemma PoolCallGrows(cfg: Config, s: Sys, c: Call)
    requires ApplyPool(cfg, s, c).Some?
    ensures GrowsOnly(s.core, ApplyPool(cfg, s, c).value.core) && ApplyPool(cfg, s, c).value.lend == s.lend
  {
    match c
    case Settle(_, _, outputs, _, _) =>
      InsertAllGrows(cfg, s.core, s.amm.addr, outputs);
    case AddLp(_, _, nfIn0, nfIn1, lpCommit, ct, _, _) =>
      AddLpGrows(cfg, s.core, s.amm.addr, nfIn0, nfIn1, lpCommit, ct);
    case RemoveLp(_, _, lpNf, cmOut0, cmOut1, ct0, ct1, _, _, _) =>
      RemoveLpGrows(cfg, s.core, s.amm.addr, lpNf, cmOut0, cmOut1, ct0, ct1);
    case _ =>
  }

  lemma LendCallGrows(cfg: Config, s: Sys, c: Call)
    requires ApplyLend(cfg, s, c).Some?
    ensures Grows(s.core, ApplyLend(cfg, s, c).value.core)
  {
    match c
    case Borrow(_, _, collatNf, borrowCm, ct, _, _, _, _) =>
      var c1 := Lock(s.core, s.lend.addr, collatNf).value.0;
      InsertGrows(cfg, c1, borrowCm, ct);
    case PayBack(_, repayNf, _, _) =>
      SpendGrows(s.core, repayNf);
    case Seizure(_, loan, _) =>
  }

  lemma CoreCallGrows(cfg: Config, s: Sys, c: Call)
    requires ApplyCore(cfg, s, c).Some?
    ensures Grows(s.core, ApplyCore(cfg, s, c).value.core)
    ensures ApplyCore(cfg, s, c).value.amm == s.amm && ApplyCore(cfg, s, c).value.lend == s.lend
  {
    match c
    case Transfer(proof, pub, cts) => TransferGrows(cfg, s.core, proof, pub, cts);
    case Withdraw(proof, pub, ct) => WithdrawGrows(cfg, s.core, proof, pub, ct);
    case _ =>
  }

  lemma NextGrows(cfg: Config, s: Sys, c: Call)
    ensures Grows(s.core, Next(cfg, s, c).core)
  {
    if Apply(cfg, s, c).Some? {
      if IsPoolCall(c) {
        PoolCallGrows(cfg, s, c);
      } else if IsLendCall(c) {
        LendCallGrows(cfg, s, c);
      } else {
        CoreCallGrows(cfg, s, c);
      }
    }
  }

  lemma GrowsTransitive(a: Core, b: Core, c: Core)
    requires Grows(a, b) && Grows(b, c)
    ensures Grows(a, c)
  {}

  /** Between any two moments of a run, leaves are only appended, each with a ciphertext, and SPENT only grows. */
  lemma {:induction false} CoreOnlyGrows(cfg: Config, s: Sys, calls: seq<Call>, i: nat, j: nat)
    requires i <= j <= |calls|
    ensures Grows(At(cfg, s, calls, i).core, At(cfg, s, calls, j).core)
    decreases j
  {
    if i < j {
      CoreOnlyGrows(cfg, s, calls, i, j - 1);
      AtStep(cfg, s, calls, j - 1);
      NextGrows(cfg, At(cfg, s, calls, j - 1), calls[j - 1]);
      GrowsTransitive(At(cfg, s, calls, i).core, At(cfg, s, calls, j - 1).core, At(cfg, s, calls, j).core);
    }
  }

  /** A ciphertext stored for an index is there, unchanged and non-empty, ever after. */
  lemma CiphertextsNeverChange(cfg: Config, s: Sys, calls: seq<Call>, i: nat, j: nat, idx: nat)
    requires IsInitial(s) && i <= j <= |calls|
    requires idx in Cts(At(cfg, s, calls, i).core.leaves)
    ensures idx in Cts(At(cfg, s, calls, j).core.leaves)
    ensures Cts(At(cfg, s, calls, j).core.leaves)[idx] == Cts(At(cfg, s, calls, i).core.leaves)[idx] != []
  {
    CoreOnlyGrows(cfg, s, calls, 0, i);
    CoreOnlyGrows(cfg, s, calls, i, j);
    assert HaveCts(At(cfg, s, calls, 0).core.leaves);
  }

  /** Whatever calls are made, the root a proof was built on stays known while fewer than 50 insertions follow. */
  lemma RootStaysKnownInRun(cfg: Config, s: Sys, calls: seq<Call>, i: nat, j: nat)
    requires i <= j <= |calls|
    requires |At(cfg, s, calls, j).core.leaves| < |At(cfg, s, calls, i).core.leaves| + 50
    ensures RootIsKnown(cfg, At(cfg, s, calls, j).core, RootAfter(cfg, At(cfg, s, calls, i).core.leaves))
  {
    CoreOnlyGrows(cfg, s, calls, i, j);
    RootStaysKnown(cfg, At(cfg, s, calls, i).core, At(cfg, s, calls, j).core);
  }

  /** A nullifier accepted by a spend is refused by every later one. */
  lemma NoDoubleSpend(cfg: Config, s: Sys, calls: seq<Call>, i: nat, j: nat, nf: nat, caller: Address)
    requires i <= j <= |calls| && nf in At(cfg, s, calls, i).core.spent
    ensures Spend(At(cfg, s, calls, j).core, caller, nf).Err?
    ensures SpendInternal(At(cfg, s, calls, j).core, nf) == Err(AlreadySpent)
    ensures Lock(At(cfg, s, calls, j).core, caller, nf).Err?
  {
    CoreOnlyGrows(cfg, s, calls, i, j);
  }
}
