/**
 * What an order sells, what a refund gives back and what a repayment spends, given a sound verifier and binding
 * hashes.
 */
module OrderSafety {
  import opened Words
  import opened Notes
  import opened Membership
  import opened NoteCircuit
  import opened BatchCircuit
  import opened CoreState
  import opened AmmState
  import opened System
  import opened BatchInvariant
  import opened BatchSafety
  import ReserveSafety
  import LendState
  import LoanInvariant
  import Field

  /** A true answer of the verifier means that some witness satisfies the circuit of the key. */
  ghost predicate SoundOrders(cfg: Config, hs: Hashes) {
    && (forall proof, inputs :: cfg.verify(VkId.Swap, proof, inputs) == Ok(true) ==>
                                  exists w, o :: SatisfiesSwap(hs, cfg.h, cfg.depth, Fields(hs, inputs), w, o))
    && (forall proof, inputs :: cfg.verify(VkId.SettleOrRefund, proof, inputs) == Ok(true) ==>
                                  exists w: Owned, blinding: Field.Fe, pk: Field.Fe ::
                                    SatisfiesRefund(hs, cfg.h, cfg.depth, Fields(hs, inputs), w, blinding, pk))
    && (forall proof, inputs :: cfg.verify(VkId.Repay, proof, inputs) == Ok(true) ==>
                                  exists w :: SatisfiesRepay(hs, cfg.h, cfg.depth, Fields(hs, inputs), w))
  }

  predicate IsNullifierOf(hs: Hashes, nf: nat, n: NoteData, ownerSk: nat, leafIndex: nat) {
    hs.read(nf) == Nullifier(hs, ownerSk, leafIndex, NoteCm(hs, n))
  }

  /** The nullifier is read as one of the note. */
  ghost predicate IsNoteOf(hs: Hashes, nf: nat, n: NoteData) {
    exists ownerSk: nat, leafIndex: nat :: IsNullifierOf(hs, nf, n, ownerSk, leafIndex)
  }

  lemma NoteIsUnique(hs: Hashes, nf: nat, n: NoteData, m: NoteData)
    requires Binding(hs) && IsNoteOf(hs, nf, n) && IsNoteOf(hs, nf, m)
    ensures n == m
  {
    var sk: nat, i: nat :| IsNullifierOf(hs, nf, n, sk, i);
    var tk: nat, j: nat :| IsNullifierOf(hs, nf, m, tk, j);
    assert hs.h3(sk, i, NoteCm(hs, n)) == hs.h3(tk, j, NoteCm(hs, m));
    assert hs.h4(n.amount, n.assetId, n.blinding, n.ownerPk) == hs.h4(m.amount, m.assetId, m.blinding, m.ownerPk);
  }

  lemma ProvedNullifier(hs: Hashes, h: Hash2, depth: nat, root: nat, nf: nat, w: Owned)
    requires Proves(hs, h, depth, root, hs.read(nf), w)
    ensures IsNoteOf(hs, nf, NoteOf(hs, w))
  {
    assert IsNullifierOf(hs, nf, NoteOf(hs, w), w.ownerSk, w.leafIndex);
  }

  // ---- orders ---------------------------------------------------------------------------------

  /**
   * The record's nullifier is one of note n of the tree, and its hash is of order o, which sells exactly n's amount for
   * a 64-bit minimum.
   */
  ghost predicate Sells(hs: Hashes, leaves: seq<Leaf>, commPk: nat, rec: OrderRecord, n: NoteData, o: Order) {
    && IsNoteOf(hs, rec.nfIn, n) && InTree(hs, leaves, NoteCm(hs, n))
    && hs.read(rec.encOrderHash) == OrderHash(hs, o, hs.read(commPk)) && o.amountIn == n.amount
    && o.minOut < TWO_64
  }

  ghost predicate SellsANote(hs: Hashes, leaves: seq<Leaf>, commPk: nat, rec: OrderRecord) {
    exists n, o :: Sells(hs, leaves, commPk, rec, n, o)
  }

  ghost predicate OrdersSellNotes(hs: Hashes, s: Sys) {
    forall k :: k in s.amm.orders ==> SellsANote(hs, s.core.leaves, s.amm.commPk, s.amm.orders[k])
  }

  function SubmittedRecord(c: Call): OrderRecord
    requires c.Submit?
  {
    OrderRecord(c.encOrder, c.nfIn, c.encOrderHash, c.submitter)
  }

  lemma SubmittedSellsANote(cfg: Config, hs: Hashes, s: Sys, c: Call)
    requires BindingTrees(cfg, hs) && SoundOrders(cfg, hs)
    requires c.Submit? && Apply(cfg, s, c).Some?
    ensures SellsANote(hs, s.core.leaves, s.amm.commPk, SubmittedRecord(c))
  {
    SubmitEffect(cfg, World(s.core, s.amm), c.ledger, c.submitter, c.proof, c.encOrder, c.nfIn, c.encOrderHash, c.root);
    var inputs := [c.root, c.nfIn, c.encOrderHash, s.amm.commPk];
    var w, o :| SatisfiesSwap(hs, cfg.h, cfg.depth, Fields(hs, inputs), w, o);
    ProvedNoteIsInTree(cfg, hs, s.core, c.root, hs.read(c.nfIn), w);
    ProvedNullifier(hs, cfg.h, cfg.depth, hs.read(c.root), c.nfIn, w);
    assert Sells(hs, s.core.leaves, s.amm.commPk, SubmittedRecord(c), NoteOf(hs, w), o);
  }

  lemma SellsANoteGrows(hs: Hashes, leaves: seq<Leaf>, more: seq<Leaf>, commPk: nat, rec: OrderRecord)
    requires leaves <= more && SellsANote(hs, leaves, commPk, rec)
    ensures SellsANote(hs, more, commPk, rec)
  {
    var n, o :| Sells(hs, leaves, commPk, rec, n, o);
    InTreeGrows(hs, leaves, more, NoteCm(hs, n));
    assert Sells(hs, more, commPk, rec, n, o);
  }

  /** Stored orders are kept, and a new one is the submitted record. */
  lemma NewOrderIsSubmitted(cfg: Config, s: Sys, c: Call)
    ensures var t := Next(cfg, s, c);
            && t.amm.commPk == s.amm.commPk
            && forall k :: k in t.amm.orders ==>
                             || (k in s.amm.orders && t.amm.orders[k] == s.amm.orders[k])
                             || (c.Submit? && Apply(cfg, s, c).Some? && t.amm.orders[k] == SubmittedRecord(c))
  {
    if Apply(cfg, s, c).None? {
    } else if c.Submit? {
      SubmitEffect(cfg, World(s.core, s.amm), c.ledger, c.submitter, c.proof, c.encOrder, c.nfIn, c.encOrderHash,
                   c.root);
    } else if c.Settle? {
      SettleEffect(cfg, World(s.core, s.amm), c.batch, c.proof, c.outputs, c.postCm, c.postEnc);
    } else if c.Refund? {
      RefundEffect(cfg, World(s.core, s.amm), c.ledger, c.batch, c.slot, c.proof, c.root, c.cmRefund, c.ct);
    } else {
      OtherCallsKeepBatches(cfg, s, c);
    }
  }

  lemma NextOrdersSellNotes(cfg: Config, hs: Hashes, s: Sys, c: Call)
    requires BindingTrees(cfg, hs) && SoundOrders(cfg, hs) && OrdersSellNotes(hs, s)
    ensures OrdersSellNotes(hs, Next(cfg, s, c))
  {
    var t := Next(cfg, s, c);
    NextGrows(cfg, s, c);
    NewOrderIsSubmitted(cfg, s, c);
    forall k | k in t.amm.orders
      ensures SellsANote(hs, t.core.leaves, t.amm.commPk, t.amm.orders[k])
    {
      if k in s.amm.orders && t.amm.orders[k] == s.amm.orders[k] {
        SellsANoteGrows(hs, s.core.leaves, t.core.leaves, s.amm.commPk, s.amm.orders[k]);
      } else {
        SubmittedSellsANote(cfg, hs, s, c);
        SellsANoteGrows(hs, s.core.leaves, t.core.leaves, s.amm.commPk, SubmittedRecord(c));
      }
    }
  }

  /**
   * In every reachable state each stored order sells exactly the amount of a note of the tree one of whose nullifiers
   * is spent.
   */
  lemma {:induction false} OrdersAlwaysSellNotes(cfg: Config, hs: Hashes, s: Sys, calls: seq<Call>)
    requires IsInitial(s) && BindingTrees(cfg, hs) && SoundOrders(cfg, hs)
    ensures OrdersSellNotes(hs, After(cfg, s, calls))
    ensures OrdersSpent(After(cfg, s, calls).amm, After(cfg, s, calls).core.spent)
  {
    BatchesStayWellFormed(cfg, s, calls);
    if calls != [] {
      OrdersAlwaysSellNotes(cfg, hs, s, calls[..|calls| - 1]);
      NextOrdersSellNotes(cfg, hs, After(cfg, s, calls[..|calls| - 1]), calls[|calls| - 1]);
    }
  }

  /** Whatever opens a stored order's nullifier and hash: the note and the order agree on the amount. */
  lemma OrderSellsItsNote(hs: Hashes, s: Sys, k: (nat, nat), n: NoteData, o: Order)
    requires Binding(hs) && OrdersSellNotes(hs, s) && k in s.amm.orders
    requires IsNoteOf(hs, s.amm.orders[k].nfIn, n) && ReserveSafety.OpensOrder(hs, s.amm, k.0, k.1, o)
    ensures o.amountIn == n.amount && InTree(hs, s.core.leaves, NoteCm(hs, n))
  {
    var m, p :| Sells(hs, s.core.leaves, s.amm.commPk, s.amm.orders[k], m, p);
    NoteIsUnique(hs, s.amm.orders[k].nfIn, n, m);
    ReserveSafety.OrderIsUnique(hs, s.amm, k.0, k.1, o, p);
  }

  /** In a settlement of a reachable state, every order that is cleared sells the amount of the note it spent. */
  lemma SettlementClearsTheSpentNotes(cfg: Config, hs: Hashes, s: Sys, calls: seq<Call>, after: Amm, batch: nat,
                                      paid: seq<nat>, w: BatchCircuit.Witness, j: nat, n: NoteData)
    requires IsInitial(s) && BindingTrees(cfg, hs) && SoundOrders(cfg, hs)
    requires var t := After(cfg, s, calls);
             && ReserveSafety.SettlementOf(hs, t.amm, after, batch, paid, w) && j < t.amm.k
             && (batch, j) in t.amm.orders && IsNoteOf(hs, t.amm.orders[(batch, j)].nfIn, n)
    ensures w.orders[j].amountIn == n.amount
  {
    OrdersAlwaysSellNotes(cfg, hs, s, calls);
    OrderSellsItsNote(hs, After(cfg, s, calls), (batch, j), n, w.orders[j]);
  }

  // ---- refunds ----------------------------------------------------------------------------------

  /** The commitment is read as one to a note of the same amount and asset, under some blinding and owner. */
  ghost predicate Reissues(hs: Hashes, cm: nat, n: NoteData) {
    exists blinding: nat, pk: nat :: hs.read(cm) == NoteCm(hs, NoteData(n.amount, n.assetId, blinding, pk))
  }

  lemma RefundProofReissues(cfg: Config, hs: Hashes, proof: Proof, inputs: seq<nat>, n: NoteData)
    requires Binding(hs) && SoundOrders(cfg, hs) && |inputs| == 5 && IsNoteOf(hs, inputs[1], n)
    requires cfg.verify(VkId.SettleOrRefund, proof, inputs) == Ok(true)
    ensures Reissues(hs, inputs[2], n)
  {
    var w: Owned, blinding: Field.Fe, pk: Field.Fe :|
      SatisfiesRefund(hs, cfg.h, cfg.depth, Fields(hs, inputs), w, blinding, pk);
    ProvedNullifier(hs, cfg.h, cfg.depth, hs.read(inputs[3]), inputs[1], w);
    NoteIsUnique(hs, inputs[1], n, NoteOf(hs, w));
    assert hs.read(inputs[2]) == NoteCm(hs, NoteData(n.amount, n.assetId, blinding, pk));
  }

  /** A refund appends one leaf, which reissues the very note that the order spent. */
  lemma RefundReissuesTheNote(cfg: Config, hs: Hashes, s: Sys, c: Call, n: NoteData)
    requires Binding(hs) && SoundOrders(cfg, hs)
    requires c.Refund? && Apply(cfg, s, c).Some?
    requires (c.batch, c.slot) in s.amm.orders && IsNoteOf(hs, s.amm.orders[(c.batch, c.slot)].nfIn, n)
    ensures Apply(cfg, s, c).value.core.leaves == s.core.leaves + [Leaf(c.cmRefund, c.ct)]
    ensures Reissues(hs, c.cmRefund, n)
  {
    RefundEffect(cfg, World(s.core, s.amm), c.ledger, c.batch, c.slot, c.proof, c.root, c.cmRefund, c.ct);
    var inputs := [c.batch, s.amm.orders[(c.batch, c.slot)].nfIn, c.cmRefund, c.root, Deadline(s.amm, c.batch)];
    RefundProofReissues(cfg, hs, c.proof, inputs, n);
  }

  // ---- repayments ------------------------------------------------------------------------------------

  /** A repayment spends a nullifier that belongs to the borrowed note and to no other. */
  lemma RepaymentSpendsTheBorrowedNote(cfg: Config, hs: Hashes, s: Sys, c: Call, n: NoteData)
    requires Binding(hs) && SoundOrders(cfg, hs) && c.PayBack? && Apply(cfg, s, c).Some?
    ensures c.loan in s.lend.loans && c.repayNf in Apply(cfg, s, c).value.core.spent
    ensures IsNoteOf(hs, c.repayNf, n) <==> NoteCm(hs, n) == hs.read(s.lend.loans[c.loan].borrowCm)
  {
    LoanInvariant.RepayEffect(cfg, LendState.LendWorld(s.core, s.lend), c.proof, c.repayNf, c.loan, c.root);
    var inputs := [c.root, c.repayNf, s.lend.loans[c.loan].borrowCm];
    var w :| SatisfiesRepay(hs, cfg.h, cfg.depth, Fields(hs, inputs), w);
    ProvedNullifier(hs, cfg.h, cfg.depth, hs.read(c.root), c.repayNf, w);
    if IsNoteOf(hs, c.repayNf, n) {
      NoteIsUnique(hs, c.repayNf, n, NoteOf(hs, w));
    }
    if NoteCm(hs, n) == hs.read(s.lend.loans[c.loan].borrowCm) {
      assert IsNullifierOf(hs, c.repayNf, n, w.ownerSk, w.leafIndex);
    }
  }
}
