/**
 * Lending over whole runs: the locked set is the open collateral, seizures cannot fail, and healthy loans are backed.
 */
module LoanSafety {
  import opened Words
  import opened CoreState
  import opened Notes
  import opened Membership
  import opened NoteCircuit
  import opened LendState
  import opened LoanInvariant
  import opened System
  import LendCircuit

  ghost predicate OnlyLendingLocks(s: Sys) {
    forall a: Address :: a != s.lend.addr ==> PermsOf(s.core.modules, a) & PERM_LOCK == 0
  }

  /** The lending invariant, and nobody else may lock. */
  ghost predicate LoanInv(s: Sys) {
    LendInv(s.core, s.lend) && OnlyLendingLocks(s)
  }

  // ---- one call ------------------------------------------------------------------------------

  lemma LendCallKeepsInv(cfg: Config, s: Sys, c: Call)
    requires LoanInv(s) && ApplyLend(cfg, s, c).Some?
    ensures LoanInv(ApplyLend(cfg, s, c).value)
  {
    var w := LendWorld(s.core, s.lend);
    match c
    case Borrow(feed, proof, collatNf, borrowCm, ct, collatAsset, borrowAsset, root, claim) =>
      OpenLoanKeeps(cfg, w, feed, proof, collatNf, borrowCm, ct, collatAsset, borrowAsset, root, claim);
    case PayBack(proof, repayNf, loan, root) => RepayKeeps(cfg, w, proof, repayNf, loan, root);
    case Seizure(feed, loan, asset) => LiquidateKeeps(w, feed, loan, asset);
  }

  lemma RegisterKeeps(s: Sys, target: Address, perms: bv32)
    requires OnlyLendingLocks(s) && (target == s.lend.addr || perms & PERM_LOCK == 0)
    ensures OnlyLendingLocks(s.(core := s.core.(modules := s.core.modules[target := perms])))
  {
    var after := s.core.modules[target := perms];
    forall a: Address | a != s.lend.addr
      ensures PermsOf(after, a) & PERM_LOCK == 0
    {
      assert PermsOf(s.core.modules, a) & PERM_LOCK == 0;
    }
  }

  lemma CoreCallKeepsInv(cfg: Config, s: Sys, c: Call)
    requires LoanInv(s) && Permitted(s, c) && !IsPoolCall(c) && !IsLendCall(c) && ApplyCore(cfg, s, c).Some?
    ensures LoanInv(ApplyCore(cfg, s, c).value)
  {
    CoreCallGrows(cfg, s, c);
    match c
    case Transfer(proof, pub, cts) => TransferGrows(cfg, s.core, proof, pub, cts);
    case Withdraw(proof, pub, ct) => WithdrawGrows(cfg, s.core, proof, pub, ct);
    case RegisterModule(target, perms) => RegisterKeeps(s, target, perms);
    case ModuleLock(caller, nf) => assert PermsOf(s.core.modules, caller) & PERM_LOCK == 0;
    case ModuleUnlock(caller, nf) => assert PermsOf(s.core.modules, caller) & PERM_LOCK == 0;
    case _ =>
  }

  lemma PoolCallKeepsInv(cfg: Config, s: Sys, c: Call)
    requires LoanInv(s) && ApplyPool(cfg, s, c).Some?
    ensures LoanInv(ApplyPool(cfg, s, c).value)
  {
    PoolCallGrows(cfg, s, c);
  }

  lemma AddressesAreFixed(cfg: Config, s: Sys, c: Call)
    ensures Next(cfg, s, c).lend.addr == s.lend.addr && Next(cfg, s, c).amm.addr == s.amm.addr
  {
    if Apply(cfg, s, c).Some? && !IsPoolCall(c) && !IsLendCall(c) {
      CoreCallGrows(cfg, s, c);
    }
  }

  lemma NextKeepsInv(cfg: Config, s: Sys, c: Call)
    requires LoanInv(s) && Permitted(s, c)
    ensures LoanInv(Next(cfg, s, c))
  {
    if Apply(cfg, s, c).Some? {
      if IsPoolCall(c) {
        PoolCallKeepsInv(cfg, s, c);
      } else if IsLendCall(c) {
        LendCallKeepsInv(cfg, s, c);
      } else {
        CoreCallKeepsInv(cfg, s, c);
      }
    }
  }

  /** After any permitted calls, LOCKED is exactly the collateral of the open loans. */
  lemma {:induction false} LockedIsOpenCollateral(cfg: Config, s: Sys, calls: seq<Call>)
    requires IsInitial(s) && AllPermitted(s, calls)
    ensures LoanInv(After(cfg, s, calls))
    ensures After(cfg, s, calls).lend.addr == s.lend.addr && After(cfg, s, calls).amm.addr == s.amm.addr
  {
    if calls == [] {
      assert OpenCollateral(s.lend) == {};
    } else {
      var n := |calls| - 1;
      LockedIsOpenCollateral(cfg, s, calls[..n]);
      NextKeepsInv(cfg, After(cfg, s, calls[..n]), calls[n]);
      AddressesAreFixed(cfg, After(cfg, s, calls[..n]), calls[n]);
    }
  }

  // ---- liquidation and repayment --------------------------------------------------------------------

  /** The nullifier is spent, the collateral is unlocked and the record is closed; nothing else changes. */
  function EndedWorld(w: LendWorld, nf: nat, id: nat): LendWorld
    requires id in w.lend.loans
  {
    LendWorld(w.core.(spent := w.core.spent + {nf}, locked := w.core.locked - {w.lend.loans[id].collatNf}),
              w.lend.(loans := w.lend.loans[id := w.lend.loans[id].(closed := true)]))
  }

  /**
   * In every reachable state, liquidating works exactly on open loans whose threshold a fresh price has fallen below,
   * both sides of the comparison fitting an i128.
   */
  lemma LiquidateSucceedsIff(cfg: Config, s: Sys, calls: seq<Call>, feed: Feed, id: nat, asset: Asset)
    requires IsInitial(s) && AllPermitted(s, calls)
    ensures var t := After(cfg, s, calls);
            var r := Liquidate(LendWorld(t.core, t.lend), feed, id, asset);
            && (r.Ok? <==>
                  && IsOpen(t.lend, id)
                  && feed.last(asset).Some? && feed.now <= feed.last(asset).value.timestamp + t.lend.staleness
                  && IsI128(feed.last(asset).value.price * 10000)
                  && IsI128(t.lend.loans[id].openOraclePrice * t.lend.loans[id].ltvMaxBps)
                  && feed.last(asset).value.price * 10000
                     < t.lend.loans[id].openOraclePrice * t.lend.loans[id].ltvMaxBps
                  && HasPerm(t.core, t.lend.addr, PERM_LOCK) && HasPerm(t.core, t.lend.addr, PERM_SPEND))
            && (r.Ok? ==> r.value.0 == EndedWorld(LendWorld(t.core, t.lend), t.lend.loans[id].collatNf, id))
  {
    LockedIsOpenCollateral(cfg, s, calls);
    var t := After(cfg, s, calls);
    if IsOpen(t.lend, id) {
      SeizeSucceedsIff(t.core, t.lend, id);
    }
  }

  /**
   * In every reachable state, the unlock inside a repayment cannot fail: only the proof, its root and the repaid
   * nullifier decide.
   */
  lemma RepaySucceedsIff(cfg: Config, s: Sys, calls: seq<Call>, proof: Proof, repayNf: nat, id: nat, root: nat)
    requires IsInitial(s) && AllPermitted(s, calls)
    ensures var t := After(cfg, s, calls);
            var r := LendState.Repay(cfg, LendWorld(t.core, t.lend), proof, repayNf, id, root);
            && (r.Ok? <==>
                  && IsOpen(t.lend, id) && RootIsKnown(cfg, t.core, root)
                  && cfg.verify(VkId.Repay, proof, [root, repayNf, t.lend.loans[id].borrowCm]) == Ok(true)
                  && repayNf !in t.core.spent && repayNf !in OpenCollateral(t.lend)
                  && HasPerm(t.core, t.lend.addr, PERM_LOCK) && HasPerm(t.core, t.lend.addr, PERM_SPEND))
            && (r.Ok? ==> r.value.0 == EndedWorld(LendWorld(t.core, t.lend), repayNf, id))
  {
    LockedIsOpenCollateral(cfg, s, calls);
    var t := After(cfg, s, calls);
    if IsOpen(t.lend, id) {
      OpenClosed(t.lend, id);
    }
  }

  // ---- loans over a run --------------------------------------------------------------------------------

  /** Loans are never removed or rewritten; they only become closed. */
  predicate LoansOnlyClose(l: Lend, m: Lend) {
    && l.addr == m.addr && l.ltvBps == m.ltvBps && l.staleness == m.staleness && l.loanSeq <= m.loanSeq
    && ((forall id :: id in l.loans ==> id < l.loanSeq)
        ==> (forall id :: id in m.loans ==> id < m.loanSeq) && Extends(l, m))
  }

  predicate Extends(l: Lend, m: Lend) {
    forall id :: id in l.loans ==>
      id in m.loans && (m.loans[id] == l.loans[id] || m.loans[id] == l.loans[id].(closed := true))
  }

  lemma LendCallOnlyCloses(cfg: Config, s: Sys, c: Call)
    requires ApplyLend(cfg, s, c).Some?
    ensures LoansOnlyClose(s.lend, ApplyLend(cfg, s, c).value.lend)
  {
    var w := LendWorld(s.core, s.lend);
    match c
    case Borrow(feed, proof, collatNf, borrowCm, ct, collatAsset, borrowAsset, root, claim) =>
      OpenLoanEffect(cfg, w, feed, proof, collatNf, borrowCm, ct, collatAsset, borrowAsset, root, claim);
    case PayBack(proof, repayNf, loan, root) => RepayEffect(cfg, w, proof, repayNf, loan, root);
    case Seizure(feed, loan, asset) => LiquidateEffect(w, feed, loan, asset);
  }

  lemma NextOnlyCloses(cfg: Config, s: Sys, c: Call)
    ensures LoansOnlyClose(s.lend, Next(cfg, s, c).lend)
  {
    if Apply(cfg, s, c).Some? {
      if IsPoolCall(c) {
        PoolCallGrows(cfg, s, c);
      } else if IsLendCall(c) {
        LendCallOnlyCloses(cfg, s, c);
      } else {
        CoreCallGrows(cfg, s, c);
      }
    }
  }

  lemma {:induction false} LoansOnlyCloseInRun(cfg: Config, s: Sys, calls: seq<Call>, i: nat, j: nat)
    requires i <= j <= |calls|
    ensures LoansOnlyClose(At(cfg, s, calls, i).lend, At(cfg, s, calls, j).lend)
    decreases j
  {
    if i < j {
      LoansOnlyCloseInRun(cfg, s, calls, i, j - 1);
      AtStep(cfg, s, calls, j - 1);
      NextOnlyCloses(cfg, At(cfg, s, calls, j - 1), calls[j - 1]);
    }
  }

  predicate Ends(c: Call, id: nat) {
    (c.PayBack? && c.loan == id) || (c.Seizure? && c.loan == id)
  }

  lemma EndingCloses(cfg: Config, s: Sys, c: Call, id: nat)
    requires Ends(c, id) && Apply(cfg, s, c).Some?
    ensures IsOpen(s.lend, id) && id in Next(cfg, s, c).lend.loans && Next(cfg, s, c).lend.loans[id].closed
  {}

  /** A loan ends once, by repayment or by seizure, never both. */
  lemma LoanEndsOnce(cfg: Config, s: Sys, calls: seq<Call>, i: nat, j: nat, id: nat)
    requires IsInitial(s) && i < j < |calls|
    requires Ends(calls[i], id) && Succeeds(cfg, s, calls, i) && Ends(calls[j], id)
    ensures !Succeeds(cfg, s, calls, j)
  {
    AtStep(cfg, s, calls, i);
    EndingCloses(cfg, At(cfg, s, calls, i), calls[i], id);
    LoansOnlyCloseInRun(cfg, s, calls, 0, i + 1);
    LoansOnlyCloseInRun(cfg, s, calls, i + 1, j);
    if Succeeds(cfg, s, calls, j) {
      EndingCloses(cfg, At(cfg, s, calls, j), calls[j], id);
    }
  }

  function OpenedRecord(s: Sys, c: Call): LoanRec
    requires c.Borrow?
  {
    LoanRec(c.collatNf, c.borrowCm, c.claim.oraclePrice, c.claim.borrowPrice, s.lend.ltvBps, false)
  }

  function BorrowedId(cfg: Config, s: Sys, c: Call): nat
    requires c.Borrow? && Apply(cfg, s, c).Some?
  {
    OpenLoan(cfg, LendWorld(s.core, s.lend), c.feed, c.proof, c.collatNf, c.borrowCm, c.ct, c.collatAsset,
             c.borrowAsset, c.root, c.claim).value.1
  }

  lemma BorrowedIsRecorded(cfg: Config, s: Sys, c: Call)
    requires c.Borrow? && Apply(cfg, s, c).Some?
    ensures var id, t := BorrowedId(cfg, s, c), Next(cfg, s, c);
            && id == s.lend.loanSeq && t.lend.loanSeq == id + 1
            && t.lend.loans == s.lend.loans[id := OpenedRecord(s, c)]
  {
    OpenLoanEffect(cfg, LendWorld(s.core, s.lend), c.feed, c.proof, c.collatNf, c.borrowCm, c.ct, c.collatAsset,
                   c.borrowAsset, c.root, c.claim);
  }

  /**
   * The id that a loan's call returns was not recorded before. Whatever calls follow, it is recorded with the
   * nullifier, the commitment and the prices of that call, so that repaying it finds that loan.
   */
  lemma ReturnedLoanIsFound(cfg: Config, s: Sys, calls: seq<Call>, i: nat, j: nat, proof: Proof, repayNf: nat,
                            root: nat)
    requires IsInitial(s) && i < j <= |calls| && calls[i].Borrow? && Succeeds(cfg, s, calls, i)
    ensures var before, later, c := At(cfg, s, calls, i), At(cfg, s, calls, j), calls[i];
            var id := BorrowedId(cfg, before, c);
            && id !in before.lend.loans && id in later.lend.loans
            && later.lend.loans[id].(closed := false)
               == LoanRec(c.collatNf, c.borrowCm, c.claim.oraclePrice, c.claim.borrowPrice, s.lend.ltvBps, false)
            && LendState.Repay(cfg, LendWorld(later.core, later.lend), proof, repayNf, id, root) != Err(LoanNotFound)
  {
    LoansOnlyCloseInRun(cfg, s, calls, 0, i);
    LoansOnlyCloseInRun(cfg, s, calls, 0, i + 1);
    LoansOnlyCloseInRun(cfg, s, calls, i + 1, j);
    AtStep(cfg, s, calls, i);
    BorrowedIsRecorded(cfg, At(cfg, s, calls, i), calls[i]);
  }

  /** A loan that was open and is closed later was ended in between, by a repayment or a seizure of its id. */
  lemma {:induction false} ClosedLoanWasEnded(cfg: Config, s: Sys, calls: seq<Call>, i: nat, j: nat, id: nat)
    returns (k: nat)
    requires IsInitial(s) && i <= j <= |calls| && IsOpen(At(cfg, s, calls, i).lend, id)
    requires id in At(cfg, s, calls, j).lend.loans && At(cfg, s, calls, j).lend.loans[id].closed
    ensures i <= k < j && Ends(calls[k], id) && Succeeds(cfg, s, calls, k)
    decreases j
  {
    var before := At(cfg, s, calls, j - 1);
    LoansOnlyCloseInRun(cfg, s, calls, 0, i);
    LoansOnlyCloseInRun(cfg, s, calls, i, j - 1);
    AtStep(cfg, s, calls, j - 1);
    if before.lend.loans[id].closed {
      k := ClosedLoanWasEnded(cfg, s, calls, i, j - 1, id);
    } else {
      LoansOnlyCloseInRun(cfg, s, calls, 0, j - 1);
      OnlyEndingCloses(cfg, before, calls[j - 1], id);
      k := j - 1;
    }
  }

  lemma OnlyEndingCloses(cfg: Config, s: Sys, c: Call, id: nat)
    requires IsOpen(s.lend, id) && id < s.lend.loanSeq
    requires id in Next(cfg, s, c).lend.loans && Next(cfg, s, c).lend.loans[id].closed
    ensures Ends(c, id) && Apply(cfg, s, c).Some?
  {
    if IsPoolCall(c) {
      if Apply(cfg, s, c).Some? {
        PoolCallGrows(cfg, s, c);
      }
    } else if !IsLendCall(c) {
      if Apply(cfg, s, c).Some? {
        CoreCallGrows(cfg, s, c);
      }
    } else if c.Borrow? && Apply(cfg, s, c).Some? {
      BorrowedIsRecorded(cfg, s, c);
    }
  }

  // ---- collateralisation ---------------------------------------------------------------------------------

  /** A true answer of the verifier means that some witness satisfies the lending circuit. */
  ghost predicate SoundLending(cfg: Config, hs: Hashes) {
    forall proof, inputs :: cfg.verify(VkId.Lend, proof, inputs) == Ok(true) ==>
                              exists w :: LendCircuit.Satisfies(hs, cfg.h, cfg.depth, Fields(hs, inputs), w)
  }

  ghost predicate Assumptions(cfg: Config, hs: Hashes) {
    BindingTrees(cfg, hs) && SoundLending(cfg, hs)
  }

  /** The loan was taken on these notes, within the ratio. */
  predicate IsLoanOf(hs: Hashes, rec: LoanRec, w: LendCircuit.Witness) {
    && hs.read(rec.collatNf) == Nullifier(hs, w.collat.ownerSk, w.collat.leafIndex, NoteCm(hs, NoteOf(hs, w.collat)))
    && hs.read(rec.borrowCm) == NoteCm(hs, LendCircuit.BorrowNote(hs, w))
    && rec.ltvMaxBps < TWO_32
    && LendCircuit.LtvConstraints(LendCircuit.I128AsField(rec.openOraclePrice), rec.ltvMaxBps,
                                  LendCircuit.I128AsField(rec.openBorrowPrice), w)
  }

  ghost predicate BackedBy(hs: Hashes, leaves: seq<Leaf>, rec: LoanRec, w: LendCircuit.Witness) {
    && IsLoanOf(hs, rec, w)
    && InTree(hs, leaves, NoteCm(hs, NoteOf(hs, w.collat))) && InTree(hs, leaves, hs.read(rec.borrowCm))
  }

  /**
   * Some note of the tree is the collateral, the borrowed note is in the tree, and the amounts are within the ratio.
   */
  ghost predicate Backed(hs: Hashes, leaves: seq<Leaf>, rec: LoanRec) {
    exists w :: BackedBy(hs, leaves, rec, w)
  }

  ghost predicate AllBacked(hs: Hashes, s: Sys) {
    forall id :: id in s.lend.loans ==> Backed(hs, s.core.leaves, s.lend.loans[id])
  }

  lemma BackedGrows(hs: Hashes, leaves: seq<Leaf>, more: seq<Leaf>, rec: LoanRec, closed: bool)
    requires leaves <= more && Backed(hs, leaves, rec)
    ensures Backed(hs, more, rec.(closed := closed))
  {
    var w :| BackedBy(hs, leaves, rec, w);
    InTreeGrows(hs, leaves, more, NoteCm(hs, NoteOf(hs, w.collat)));
    InTreeGrows(hs, leaves, more, hs.read(rec.borrowCm));
    assert BackedBy(hs, more, rec.(closed := closed), w);
  }

  lemma SatisfiedIsLoan(hs: Hashes, h: Hash2, depth: nat, lend: Lend, root: nat, collatNf: nat, borrowCm: nat,
                        claim: OracleClaim, w: LendCircuit.Witness)
    requires LendCircuit.Satisfies(hs, h, depth, Fields(hs, LendInputs(lend, root, collatNf, borrowCm, claim)), w)
    requires Reads(hs) && lend.ltvBps < TWO_32
    ensures IsLoanOf(hs, LoanRec(collatNf, borrowCm, claim.oraclePrice, claim.borrowPrice, lend.ltvBps, false), w)
    ensures Proves(hs, h, depth, hs.read(root), hs.read(collatNf), w.collat)
  {
    var inputs := LendInputs(lend, root, collatNf, borrowCm, claim);
    assert hs.read(inputs[3]) == inputs[3] && hs.read(inputs[5]) == inputs[5] && hs.read(inputs[6]) == inputs[6];
  }

  lemma OpenedIsBacked(cfg: Config, hs: Hashes, core: Core, lend: Lend, proof: Proof, root: nat, collatNf: nat,
                       borrowCm: nat, claim: OracleClaim, ct: Bytes)
    requires Assumptions(cfg, hs) && lend.ltvBps < TWO_32 && RootIsKnown(cfg, core, root)
    requires cfg.verify(VkId.Lend, proof, LendInputs(lend, root, collatNf, borrowCm, claim)) == Ok(true)
    ensures Backed(hs, core.leaves + [Leaf(borrowCm, ct)],
                   LoanRec(collatNf, borrowCm, claim.oraclePrice, claim.borrowPrice, lend.ltvBps, false))
  {
    var inputs := LendInputs(lend, root, collatNf, borrowCm, claim);
    var w :| LendCircuit.Satisfies(hs, cfg.h, cfg.depth, Fields(hs, inputs), w);
    SatisfiedIsLoan(hs, cfg.h, cfg.depth, lend, root, collatNf, borrowCm, claim, w);
    ProvedNoteIsInTree(cfg, hs, core, root, hs.read(collatNf), w.collat);
    LoanIsBacked(hs, core.leaves, ct,
                 LoanRec(collatNf, borrowCm, claim.oraclePrice, claim.borrowPrice, lend.ltvBps, false), w);
  }

  lemma LoanIsBacked(hs: Hashes, leaves: seq<Leaf>, ct: Bytes, rec: LoanRec, w: LendCircuit.Witness)
    requires IsLoanOf(hs, rec, w) && InTree(hs, leaves, NoteCm(hs, NoteOf(hs, w.collat)))
    ensures Backed(hs, leaves + [Leaf(rec.borrowCm, ct)], rec)
  {
    var more := leaves + [Leaf(rec.borrowCm, ct)];
    InTreeGrows(hs, leaves, more, NoteCm(hs, NoteOf(hs, w.collat)));
    assert IsLeaf(hs, more, |leaves|, hs.read(rec.borrowCm));
    assert BackedBy(hs, more, rec, w);
  }

  lemma OthersStayBacked(hs: Hashes, s: Sys, t: Sys)
    requires AllBacked(hs, s) && s.core.leaves <= t.core.leaves
    ensures forall id ::
              id in s.lend.loans && id in t.lend.loans
              && t.lend.loans[id].(closed := false) == s.lend.loans[id].(closed := false) ==>
                Backed(hs, t.core.leaves, t.lend.loans[id])
  {
    forall id | id in s.lend.loans && id in t.lend.loans
                && t.lend.loans[id].(closed := false) == s.lend.loans[id].(closed := false)
      ensures Backed(hs, t.core.leaves, t.lend.loans[id])
    {
      BackedGrows(hs, s.core.leaves, t.core.leaves, s.lend.loans[id], t.lend.loans[id].closed);
    }
  }

  /** What an opened loan rests on and what it changes. */
  lemma BorrowChanges(cfg: Config, s: Sys, c: Call)
    requires c.Borrow? && ApplyLend(cfg, s, c).Some?
    ensures RootIsKnown(cfg, s.core, c.root)
    ensures cfg.verify(VkId.Lend, c.proof, LendInputs(s.lend, c.root, c.collatNf, c.borrowCm, c.claim)) == Ok(true)
    ensures var t := ApplyLend(cfg, s, c).value;
            && t.core.leaves == s.core.leaves + [Leaf(c.borrowCm, c.ct)]
            && t.lend.loans == s.lend.loans[s.lend.loanSeq := OpenedRecord(s, c)]
  {
    OpenLoanEffect(cfg, LendWorld(s.core, s.lend), c.feed, c.proof, c.collatNf, c.borrowCm, c.ct, c.collatAsset,
                   c.borrowAsset, c.root, c.claim);
  }

  lemma BorrowIsBacked(cfg: Config, hs: Hashes, s: Sys, c: Call)
    requires Assumptions(cfg, hs) && s.lend.ltvBps < TWO_32
    requires c.Borrow? && ApplyLend(cfg, s, c).Some?
    ensures var t := ApplyLend(cfg, s, c).value;
            && s.core.leaves <= t.core.leaves && t.lend.loans == s.lend.loans[s.lend.loanSeq := OpenedRecord(s, c)]
            && Backed(hs, t.core.leaves, OpenedRecord(s, c))
  {
    BorrowChanges(cfg, s, c);
    OpenedIsBacked(cfg, hs, s.core, s.lend, c.proof, c.root, c.collatNf, c.borrowCm, c.claim, c.ct);
  }

  lemma EndingKeepsRecords(cfg: Config, s: Sys, c: Call)
    requires c.PayBack? || c.Seizure?
    requires ApplyLend(cfg, s, c).Some?
    ensures var t := ApplyLend(cfg, s, c).value;
            && s.core.leaves <= t.core.leaves && t.lend.loans.Keys == s.lend.loans.Keys
            && (forall id :: id in s.lend.loans ==>
                               t.lend.loans[id].(closed := false) == s.lend.loans[id].(closed := false))
  {}

  /** Loans keep their collateral, and a new one has that of the call. */
  lemma NewLoanIsBorrowed(cfg: Config, s: Sys, c: Call)
    ensures var t := Next(cfg, s, c);
            forall id :: id in t.lend.loans ==>
                           || (id in s.lend.loans && t.lend.loans[id].collatNf == s.lend.loans[id].collatNf)
                           || (c.Borrow? && ApplyLend(cfg, s, c).Some? && t.lend.loans[id] == OpenedRecord(s, c))
  {
    if Apply(cfg, s, c).Some? {
      if IsPoolCall(c) {
        PoolCallGrows(cfg, s, c);
      } else if !IsLendCall(c) {
        CoreCallGrows(cfg, s, c);
      } else if c.Borrow? {
        OpenLoanEffect(cfg, LendWorld(s.core, s.lend), c.feed, c.proof, c.collatNf, c.borrowCm, c.ct, c.collatAsset,
                       c.borrowAsset, c.root, c.claim);
      } else {
        EndingKeepsRecords(cfg, s, c);
      }
    }
  }

  lemma NextKeepsBacked(cfg: Config, hs: Hashes, s: Sys, c: Call)
    requires Assumptions(cfg, hs) && AllBacked(hs, s) && s.lend.ltvBps < TWO_32
    ensures AllBacked(hs, Next(cfg, s, c))
  {
    var t := Next(cfg, s, c);
    NextGrows(cfg, s, c);
    OthersStayBacked(hs, s, t);
    if Apply(cfg, s, c).Some? {
      if IsPoolCall(c) {
        PoolCallGrows(cfg, s, c);
      } else if !IsLendCall(c) {
        CoreCallGrows(cfg, s, c);
      } else if c.Borrow? {
        BorrowIsBacked(cfg, hs, s, c);
      } else {
        EndingKeepsRecords(cfg, s, c);
      }
    }
  }

  /**
   * Every loan ever opened has as collateral one of the nullifiers of a note that is in the tree, within the ratio at
   * its opening prices. Another loan may have another nullifier of the same note.
   */
  lemma {:induction false} LoansAreBacked(cfg: Config, hs: Hashes, s: Sys, calls: seq<Call>)
    requires IsInitial(s) && Assumptions(cfg, hs)
    ensures AllBacked(hs, After(cfg, s, calls)) && After(cfg, s, calls).lend.ltvBps == s.lend.ltvBps
  {
    if calls != [] {
      var n := |calls| - 1;
      LoansAreBacked(cfg, hs, s, calls[..n]);
      NextKeepsBacked(cfg, hs, After(cfg, s, calls[..n]), calls[n]);
      NextOnlyCloses(cfg, After(cfg, s, calls[..n]), calls[n]);
    }
  }

  /** The notes that a loan's nullifier and commitment are read as those of. */
  predicate OpensLoan(hs: Hashes, rec: LoanRec, collat: NoteData, ownerSk: nat, leafIndex: nat, borrow: NoteData) {
    && hs.read(rec.collatNf) == Nullifier(hs, ownerSk, leafIndex, NoteCm(hs, collat))
    && hs.read(rec.borrowCm) == NoteCm(hs, borrow)
  }

  lemma BackedMeansCollateralised(hs: Hashes, rec: LoanRec, w: LendCircuit.Witness, price: I128, collat: NoteData,
                                  ownerSk: nat, leafIndex: nat, borrow: NoteData)
    requires Binding(hs) && IsLoanOf(hs, rec, w) && OpensLoan(hs, rec, collat, ownerSk, leafIndex, borrow)
    requires rec.openOraclePrice >= 0 && rec.openBorrowPrice >= 0
             && price * 10000 >= rec.openOraclePrice * rec.ltvMaxBps
    ensures collat == NoteOf(hs, w.collat) && borrow == LendCircuit.BorrowNote(hs, w)
    ensures collat.amount < TWO_64 && borrow.amount < TWO_64
            && borrow.amount * rec.openBorrowPrice <= collat.amount * price
  {
    LendCircuit.LtvConstraintsMean(rec.openOraclePrice, rec.ltvMaxBps, rec.openBorrowPrice, w);
    LendCircuit.HealthyIsCollateralised(w.collat.amount, w.borrowAmount, rec.openOraclePrice, rec.openBorrowPrice,
                                        rec.ltvMaxBps, price);
  }

  lemma BackedLoanIsCollateralised(hs: Hashes, leaves: seq<Leaf>, rec: LoanRec, price: I128, collat: NoteData,
                                   ownerSk: nat, leafIndex: nat, borrow: NoteData)
    requires Binding(hs) && Backed(hs, leaves, rec) && OpensLoan(hs, rec, collat, ownerSk, leafIndex, borrow)
    requires rec.openOraclePrice >= 0 && rec.openBorrowPrice >= 0
             && price * 10000 >= rec.openOraclePrice * rec.ltvMaxBps
    ensures collat.amount < TWO_64 && borrow.amount < TWO_64
            && borrow.amount * rec.openBorrowPrice <= collat.amount * price
    ensures InTree(hs, leaves, NoteCm(hs, collat)) && InTree(hs, leaves, NoteCm(hs, borrow))
  {
    var w :| BackedBy(hs, leaves, rec, w);
    BackedMeansCollateralised(hs, rec, w, price, collat, ownerSk, leafIndex, borrow);
  }

  lemma HealthyMeans(w: LendWorld, feed: Feed, id: nat, asset: Asset)
    requires Liquidate(w, feed, id, asset) == Err(Healthy)
    ensures IsOpen(w.lend, id) && feed.last(asset).Some?
    ensures feed.last(asset).value.price * 10000 >= w.lend.loans[id].openOraclePrice * w.lend.loans[id].ltvMaxBps
  {}

  /**
   * Whenever liquidation finds a loan of a reachable state Healthy at the price it reads, the notes behind it satisfy
   * borrow * borrow price <= collateral * that price, and the collateral note is in the tree.
   */
  lemma HealthyLoansAreCollateralised(cfg: Config, hs: Hashes, s: Sys, calls: seq<Call>, feed: Feed, id: nat,
                                      asset: Asset, collat: NoteData, ownerSk: nat, leafIndex: nat, borrow: NoteData)
    requires IsInitial(s) && Assumptions(cfg, hs)
    requires var t := After(cfg, s, calls);
             && Liquidate(LendWorld(t.core, t.lend), feed, id, asset) == Err(Healthy)
             && t.lend.loans[id].openOraclePrice >= 0 && t.lend.loans[id].openBorrowPrice >= 0
             && OpensLoan(hs, t.lend.loans[id], collat, ownerSk, leafIndex, borrow)
    ensures var t := After(cfg, s, calls);
            && collat.amount < TWO_64 && borrow.amount < TWO_64
            && feed.last(asset).Some?
            && borrow.amount * t.lend.loans[id].openBorrowPrice <= collat.amount * feed.last(asset).value.price
            && InTree(hs, t.core.leaves, NoteCm(hs, collat)) && InTree(hs, t.core.leaves, NoteCm(hs, borrow))
  {
    LoansAreBacked(cfg, hs, s, calls);
    var t := After(cfg, s, calls);
    HealthyMeans(LendWorld(t.core, t.lend), feed, id, asset);
    BackedLoanIsCollateralised(hs, t.core.leaves, t.lend.loans[id], feed.last(asset).value.price, collat, ownerSk,
                               leafIndex, borrow);
  }
}
