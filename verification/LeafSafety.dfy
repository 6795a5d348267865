/**
 * What ties a nullifier to a leaf: nothing in the circuits as they are, and one leaf each under one more constraint.
 */
module LeafSafety {
  import opened Words
  import opened Notes
  import opened Membership
  import opened NoteCircuit
  import opened CoreState
  import opened AmmState
  import opened BatchInvariant
  import opened LendState
  import opened LoanInvariant
  import opened System
  import BatchSafety
  import LendCircuit
  import LoanSafety
  import OrderSafety

  // ---- leaves and their nullifiers ---------------------------------------------------------

  predicate IsNullifierAt(hs: Hashes, leaves: seq<Leaf>, i: nat, nf: nat, n: NoteData, ownerSk: nat) {
    && IsLeaf(hs, leaves, i, NoteCm(hs, n)) && n.ownerPk == hs.h1(ownerSk)
    && hs.read(nf) == Nullifier(hs, ownerSk, i, NoteCm(hs, n))
  }

  /** The nullifier is read as the one that the owner of leaf i derives for index i. */
  ghost predicate StandsOn(hs: Hashes, leaves: seq<Leaf>, nf: nat, i: nat) {
    exists n, ownerSk :: IsNullifierAt(hs, leaves, i, nf, n, ownerSk)
  }

  ghost predicate StandsOnSome(hs: Hashes, leaves: seq<Leaf>, nf: nat) {
    exists i :: StandsOn(hs, leaves, nf, i)
  }

  /** Two numbers stand on one leaf exactly when they are read as the same nullifier. */
  lemma OneNullifierPerLeaf(hs: Hashes, leaves: seq<Leaf>, i: nat, nf: nat, j: nat, nf': nat)
    requires Binding(hs) && StandsOn(hs, leaves, nf, i) && StandsOn(hs, leaves, nf', j)
    ensures i == j <==> hs.read(nf) == hs.read(nf')
  {
    var n, sk :| IsNullifierAt(hs, leaves, i, nf, n, sk);
    var m, tk :| IsNullifierAt(hs, leaves, j, nf', m, tk);
    if i == j {
      OpeningIsUnique(hs, n, m);
      assert hs.h1(sk) == hs.h1(tk);
    }
    if hs.read(nf) == hs.read(nf') {
      assert hs.h3(sk, i, NoteCm(hs, n)) == hs.h3(tk, j, NoteCm(hs, m));
    }
  }

  lemma StandsOnGrows(hs: Hashes, leaves: seq<Leaf>, more: seq<Leaf>, nf: nat)
    requires leaves <= more && StandsOnSome(hs, leaves, nf)
    ensures StandsOnSome(hs, more, nf)
  {
    var i :| StandsOn(hs, leaves, nf, i);
    var n, sk :| IsNullifierAt(hs, leaves, i, nf, n, sk);
    assert IsNullifierAt(hs, more, i, nf, n, sk);
    assert StandsOn(hs, more, nf, i);
  }

  /** A proof whose index is that of its path puts its nullifier on the leaf it proves. */
  lemma GuardedProofStandsOnLeaf(cfg: Config, hs: Hashes, core: Core, root: nat, nf: nat, w: Owned)
    requires BindingTrees(cfg, hs) && RootIsKnown(cfg, core, root)
    requires Proves(hs, cfg.h, cfg.depth, hs.read(root), hs.read(nf), w) && IndexIsOfPath(w)
    ensures StandsOnSome(hs, core.leaves, nf)
  {
    ProvedNoteIsInTree(cfg, hs, core, root, hs.read(nf), w);
    assert IsNullifierAt(hs, core.leaves, w.leafIndex, nf, NoteOf(hs, w), w.ownerSk);
    assert StandsOn(hs, core.leaves, nf, w.leafIndex);
  }

  // ---- with the missing constraint ---------------------------------------------------------------

  /** Soundness of circuits that also constrain the index of the note. */
  ghost predicate SoundGuarded(cfg: Config, hs: Hashes) {
    && (forall proof, inputs :: cfg.verify(VkId.Lend, proof, inputs) == Ok(true) ==>
                                  exists w ::
                                    && LendCircuit.Satisfies(hs, cfg.h, cfg.depth, Fields(hs, inputs), w)
                                    && IndexIsOfPath(w.collat))
    && (forall proof, inputs :: cfg.verify(VkId.Swap, proof, inputs) == Ok(true) ==>
                                  exists w, o ::
                                    && SatisfiesSwap(hs, cfg.h, cfg.depth, Fields(hs, inputs), w, o)
                                    && IndexIsOfPath(w))
  }

  ghost predicate LoansStandOnLeaves(hs: Hashes, leaves: seq<Leaf>, lend: Lend) {
    forall id :: id in lend.loans ==> StandsOnSome(hs, leaves, lend.loans[id].collatNf)
  }

  ghost predicate OrdersStandOnLeaves(hs: Hashes, leaves: seq<Leaf>, amm: Amm) {
    forall k :: k in amm.orders ==> StandsOnSome(hs, leaves, amm.orders[k].nfIn)
  }

  lemma LoanProofStandsOnLeaf(cfg: Config, hs: Hashes, core: Core, proof: Proof, inputs: seq<nat>)
    requires BindingTrees(cfg, hs) && SoundGuarded(cfg, hs) && |inputs| == 7
    requires RootIsKnown(cfg, core, inputs[0]) && cfg.verify(VkId.Lend, proof, inputs) == Ok(true)
    ensures StandsOnSome(hs, core.leaves, inputs[1])
  {
    var w :| LendCircuit.Satisfies(hs, cfg.h, cfg.depth, Fields(hs, inputs), w) && IndexIsOfPath(w.collat);
    GuardedProofStandsOnLeaf(cfg, hs, core, inputs[0], inputs[1], w.collat);
  }

  lemma BorrowStandsOnLeaf(cfg: Config, hs: Hashes, s: Sys, c: Call)
    requires BindingTrees(cfg, hs) && SoundGuarded(cfg, hs) && c.Borrow? && ApplyLend(cfg, s, c).Some?
    ensures StandsOnSome(hs, s.core.leaves, c.collatNf)
  {
    OpenLoanEffect(cfg, LendWorld(s.core, s.lend), c.feed, c.proof, c.collatNf, c.borrowCm, c.ct, c.collatAsset,
                   c.borrowAsset, c.root, c.claim);
    LoanProofStandsOnLeaf(cfg, hs, s.core, c.proof, LendInputs(s.lend, c.root, c.collatNf, c.borrowCm, c.claim));
  }

  lemma SubmitStandsOnLeaf(cfg: Config, hs: Hashes, s: Sys, c: Call)
    requires BindingTrees(cfg, hs) && SoundGuarded(cfg, hs) && c.Submit? && Apply(cfg, s, c).Some?
    ensures StandsOnSome(hs, s.core.leaves, c.nfIn)
  {
    SubmitEffect(cfg, World(s.core, s.amm), c.ledger, c.submitter, c.proof, c.encOrder, c.nfIn, c.encOrderHash, c.root);
    var inputs := [c.root, c.nfIn, c.encOrderHash, s.amm.commPk];
    var w, o :| SatisfiesSwap(hs, cfg.h, cfg.depth, Fields(hs, inputs), w, o) && IndexIsOfPath(w);
    GuardedProofStandsOnLeaf(cfg, hs, s.core, c.root, c.nfIn, w);
  }

  lemma NextLoansStandOnLeaves(cfg: Config, hs: Hashes, s: Sys, c: Call)
    requires BindingTrees(cfg, hs) && SoundGuarded(cfg, hs) && LoansStandOnLeaves(hs, s.core.leaves, s.lend)
    ensures LoansStandOnLeaves(hs, Next(cfg, s, c).core.leaves, Next(cfg, s, c).lend)
  {
    var t := Next(cfg, s, c);
    NextGrows(cfg, s, c);
    LoanSafety.NewLoanIsBorrowed(cfg, s, c);
    forall id | id in t.lend.loans
      ensures StandsOnSome(hs, t.core.leaves, t.lend.loans[id].collatNf)
    {
      if id in s.lend.loans && t.lend.loans[id].collatNf == s.lend.loans[id].collatNf {
        StandsOnGrows(hs, s.core.leaves, t.core.leaves, s.lend.loans[id].collatNf);
      } else {
        BorrowStandsOnLeaf(cfg, hs, s, c);
        StandsOnGrows(hs, s.core.leaves, t.core.leaves, c.collatNf);
      }
    }
  }

  lemma NextOrdersStandOnLeaves(cfg: Config, hs: Hashes, s: Sys, c: Call)
    requires BindingTrees(cfg, hs) && SoundGuarded(cfg, hs) && OrdersStandOnLeaves(hs, s.core.leaves, s.amm)
    ensures OrdersStandOnLeaves(hs, Next(cfg, s, c).core.leaves, Next(cfg, s, c).amm)
  {
    var t := Next(cfg, s, c);
    NextGrows(cfg, s, c);
    OrderSafety.NewOrderIsSubmitted(cfg, s, c);
    forall k | k in t.amm.orders
      ensures StandsOnSome(hs, t.core.leaves, t.amm.orders[k].nfIn)
    {
      if k in s.amm.orders && t.amm.orders[k] == s.amm.orders[k] {
        StandsOnGrows(hs, s.core.leaves, t.core.leaves, s.amm.orders[k].nfIn);
      } else {
        SubmitStandsOnLeaf(cfg, hs, s, c);
        StandsOnGrows(hs, s.core.leaves, t.core.leaves, c.nfIn);
      }
    }
  }

  lemma {:induction false} AllStandOnLeaves(cfg: Config, hs: Hashes, s: Sys, calls: seq<Call>)
    requires IsInitial(s) && BindingTrees(cfg, hs) && SoundGuarded(cfg, hs)
    ensures LoansStandOnLeaves(hs, After(cfg, s, calls).core.leaves, After(cfg, s, calls).lend)
    ensures OrdersStandOnLeaves(hs, After(cfg, s, calls).core.leaves, After(cfg, s, calls).amm)
  {
    if calls != [] {
      var n := |calls| - 1;
      AllStandOnLeaves(cfg, hs, s, calls[..n]);
      NextLoansStandOnLeaves(cfg, hs, After(cfg, s, calls[..n]), calls[n]);
      NextOrdersStandOnLeaves(cfg, hs, After(cfg, s, calls[..n]), calls[n]);
    }
  }

  /** What is pledged or sold in a state: the collateral of open loans and the notes of stored orders. */
  datatype Claim = Pledge(id: nat) | Sale(batch: nat, slot: nat)

  predicate IsClaim(s: Sys, c: Claim) {
    match c
    case Pledge(id) => IsOpen(s.lend, id)
    case Sale(batch, slot) => (batch, slot) in s.amm.orders
  }

  function ClaimedNf(s: Sys, c: Claim): nat
    requires IsClaim(s, c)
  {
    match c
    case Pledge(id) => s.lend.loans[id].collatNf
    case Sale(batch, slot) => s.amm.orders[(batch, slot)].nfIn
  }

  /** Different claims hold different nullifiers. */
  lemma ClaimsDiffer(cfg: Config, s: Sys, calls: seq<Call>, c: Claim, d: Claim)
    requires IsInitial(s) && AllPermitted(s, calls) && c != d
    requires IsClaim(After(cfg, s, calls), c) && IsClaim(After(cfg, s, calls), d)
    ensures ClaimedNf(After(cfg, s, calls), c) != ClaimedNf(After(cfg, s, calls), d)
  {
    var t := After(cfg, s, calls);
    LoanSafety.LockedIsOpenCollateral(cfg, s, calls);
    BatchSafety.BatchesStayWellFormed(cfg, s, calls);
    match (c, d)
    case (Pledge(id), Pledge(other)) => PledgesDiffer(t.lend, id, other);
    case (Pledge(id), Sale(_, _)) => OpenClosed(t.lend, id);
    case (Sale(_, _), Pledge(id)) => OpenClosed(t.lend, id);
    case (Sale(_, _), Sale(_, _)) =>
  }

  lemma PledgesDiffer(lend: Lend, id: nat, other: nat)
    requires DistinctOpen(lend) && IsOpen(lend, id) && IsOpen(lend, other) && id != other
    ensures lend.loans[id].collatNf != lend.loans[other].collatNf
  {
    assert IsCollateralOf(lend, id, lend.loans[id].collatNf);
    assert IsCollateralOf(lend, other, lend.loans[other].collatNf);
  }

  /**
   * With the index constrained, in every reachable state each open loan and each stored order stands on a leaf; two of
   * them stand on the same leaf exactly when their nullifiers are read alike.
   */
  lemma ClaimsShareALeafIff(cfg: Config, hs: Hashes, s: Sys, calls: seq<Call>, c: Claim, d: Claim, i: nat, j: nat)
    requires IsInitial(s) && BindingTrees(cfg, hs) && SoundGuarded(cfg, hs)
    requires IsClaim(After(cfg, s, calls), c) && IsClaim(After(cfg, s, calls), d)
    ensures var t := After(cfg, s, calls);
            && StandsOnSome(hs, t.core.leaves, ClaimedNf(t, c))
            && (StandsOn(hs, t.core.leaves, ClaimedNf(t, c), i) && StandsOn(hs, t.core.leaves, ClaimedNf(t, d), j) ==>
                  (i == j <==> hs.read(ClaimedNf(t, c)) == hs.read(ClaimedNf(t, d))))
  {
    var t := After(cfg, s, calls);
    AllStandOnLeaves(cfg, hs, s, calls);
    if StandsOn(hs, t.core.leaves, ClaimedNf(t, c), i) && StandsOn(hs, t.core.leaves, ClaimedNf(t, d), j) {
      OneNullifierPerLeaf(hs, t.core.leaves, i, ClaimedNf(t, c), j, ClaimedNf(t, d));
    }
  }

  // ---- with a check of the nullifier as well --------------------------------------------------------

  /** What a contract could check before the call: the nullifier is the very field element that it is read as. */
  predicate NamesCanonical(hs: Hashes, c: Call) {
    && (c.Borrow? ==> hs.read(c.collatNf) == c.collatNf)
    && (c.Submit? ==> hs.read(c.nfIn) == c.nfIn)
  }

  predicate AllNameCanonical(hs: Hashes, calls: seq<Call>) {
    forall i :: 0 <= i < |calls| ==> NamesCanonical(hs, calls[i])
  }

  predicate ClaimsCanonical(hs: Hashes, s: Sys) {
    && (forall id :: id in s.lend.loans ==> hs.read(s.lend.loans[id].collatNf) == s.lend.loans[id].collatNf)
    && (forall k :: k in s.amm.orders ==> hs.read(s.amm.orders[k].nfIn) == s.amm.orders[k].nfIn)
  }

  lemma {:induction false} CheckedClaimsAreCanonical(cfg: Config, hs: Hashes, s: Sys, calls: seq<Call>)
    requires IsInitial(s) && AllNameCanonical(hs, calls)
    ensures ClaimsCanonical(hs, After(cfg, s, calls))
  {
    if calls != [] {
      var n := |calls| - 1;
      CheckedClaimsAreCanonical(cfg, hs, s, calls[..n]);
      assert NamesCanonical(hs, calls[n]);
      LoanSafety.NewLoanIsBorrowed(cfg, After(cfg, s, calls[..n]), calls[n]);
      OrderSafety.NewOrderIsSubmitted(cfg, After(cfg, s, calls[..n]), calls[n]);
    }
  }

  /**
   * With the index constrained and canonical nullifiers checked, in every reachable state different open loans and
   * stored orders stand on different leaves.
   */
  lemma ClaimsStandOnDistinctLeaves(cfg: Config, hs: Hashes, s: Sys, calls: seq<Call>, c: Claim, d: Claim, i: nat,
                                    j: nat)
    requires IsInitial(s) && AllPermitted(s, calls) && AllNameCanonical(hs, calls)
    requires BindingTrees(cfg, hs) && SoundGuarded(cfg, hs)
    requires IsClaim(After(cfg, s, calls), c) && IsClaim(After(cfg, s, calls), d)
    ensures var t := After(cfg, s, calls);
            && StandsOnSome(hs, t.core.leaves, ClaimedNf(t, c))
            && (StandsOn(hs, t.core.leaves, ClaimedNf(t, c), i) && StandsOn(hs, t.core.leaves, ClaimedNf(t, d), j) ==>
                  (i == j <==> c == d))
  {
    ClaimsShareALeafIff(cfg, hs, s, calls, c, d, i, j);
    CheckedClaimsAreCanonical(cfg, hs, s, calls);
    if c != d {
      ClaimsDiffer(cfg, s, calls, c, d);
    }
  }
}
