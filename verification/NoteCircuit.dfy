/** Proving ownership of a note in the tree, and the circuits of swap orders, refunds and repayments built on it. */
module NoteCircuit {
  import opened Words
  import opened Field
  import opened Notes
  import opened SparseTree
  import opened BatchCircuit

  /** The private inputs that prove a note: its opening, its owner's key, its claimed index and its path. */
  datatype Owned = Owned(amount: Fe, asset: Fe, blinding: Fe, ownerSk: Fe, leafIndex: Fe, path: seq<nat>,
                         sides: seq<nat>)

  function NoteOf(hs: Hashes, w: Owned): NoteData {
    NoteData(w.amount, w.asset, w.blinding, hs.h1(w.ownerSk))
  }

  /** The range check, Merkle membership and nullifier constraints shared by the circuits that spend or lock a note. */
  predicate Proves(hs: Hashes, h: Hash2, depth: nat, root: nat, nf: nat, w: Owned) {
    && w.amount < TWO_64
    && |w.path| == |w.sides| == depth
    && (forall k :: 0 <= k < depth ==> w.sides[k] <= 1)
    && root == Fold(h, NoteCm(hs, NoteOf(hs, w)), w.path, w.sides)
    && nf == Nullifier(hs, w.ownerSk, w.leafIndex, NoteCm(hs, NoteOf(hs, w)))
  }

  /** The circuits leave the claimed index free: whoever proves a note proves it under the nullifier of every index. */
  lemma AnyIndexProves(hs: Hashes, h: Hash2, depth: nat, root: nat, nf: nat, w: Owned, index: Fe)
    requires Proves(hs, h, depth, root, nf, w)
    ensures Proves(hs, h, depth, root, Nullifier(hs, w.ownerSk, index, NoteCm(hs, NoteOf(hs, w))),
                   w.(leafIndex := index))
  {
    assert NoteOf(hs, w.(leafIndex := index)) == NoteOf(hs, w);
  }

  /** Two proofs of one note have the same nullifier exactly when they claim the same index. */
  lemma NullifiersAgreeIff(hs: Hashes, h: Hash2, depth: nat, root: nat, nf: nat, w: Owned, root': nat, nf': nat,
                           w': Owned)
    requires Binding(hs) && Proves(hs, h, depth, root, nf, w) && Proves(hs, h, depth, root', nf', w')
    requires NoteOf(hs, w) == NoteOf(hs, w')
    ensures nf == nf' <==> w.leafIndex == w'.leafIndex
  {
    var f, cm := hs.h3, NoteCm(hs, NoteOf(hs, w));
    assert hs.h1(w.ownerSk) == hs.h1(w'.ownerSk);
    assert nf == f(w.ownerSk, w.leafIndex, cm) && nf' == f(w'.ownerSk, w'.leafIndex, cm);
  }

  /** The missing constraint: the claimed index is the one the path leads to. */
  predicate IndexIsOfPath(w: Owned) {
    w.leafIndex == PathIndex(0, w.sides)
  }

  /** [root, nf_in, enc_order_hash, committee_pk]; the order sells the amount of the note. */
  predicate SatisfiesSwap(hs: Hashes, h: Hash2, depth: nat, inputs: seq<nat>, w: Owned, o: Order) {
    && |inputs| == 4
    && Proves(hs, h, depth, inputs[0], inputs[1], w)
    && o.minOut < TWO_64 && o.amountIn == w.amount
    && inputs[2] == OrderHash(hs, o, inputs[3])
  }

  /** The order does not name the asset it sells: it can be placed with a note of any asset that holds the amount. */
  lemma AnyAssetSells(hs: Hashes, h: Hash2, depth: nat, inputs: seq<nat>, w: Owned, o: Order, root: nat, nf: nat,
                      w': Owned)
    requires SatisfiesSwap(hs, h, depth, inputs, w, o)
    requires Proves(hs, h, depth, root, nf, w') && w'.amount == w.amount
    ensures SatisfiesSwap(hs, h, depth, [root, nf, inputs[2], inputs[3]], w', o)
  {}

  /** [batch_id, nf_in, cm_refund, root, batch_deadline]; the refund keeps amount and asset. */
  predicate SatisfiesRefund(hs: Hashes, h: Hash2, depth: nat, inputs: seq<nat>, w: Owned, outBlinding: Fe,
                            outOwnerPk: Fe)
  {
    && |inputs| == 5
    && Proves(hs, h, depth, inputs[3], inputs[1], w)
    && inputs[2] == NoteCm(hs, NoteData(w.amount, w.asset, outBlinding, outOwnerPk))
  }

  /** [root, repay_nf, borrow_cm] */
  predicate SatisfiesRepay(hs: Hashes, h: Hash2, depth: nat, inputs: seq<nat>, w: Owned) {
    && |inputs| == 3
    && Proves(hs, h, depth, inputs[0], inputs[1], w)
    && inputs[2] == NoteCm(hs, NoteOf(hs, w))
  }
}
