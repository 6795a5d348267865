/** The circuits of transfers, withdrawals and deposits, and what their constraints mean for whole notes. */
module TransferCircuit {
  import opened Words
  import opened Field
  import opened Notes
  import opened SparseTree
  import opened NoteCircuit

  /** The private inputs behind a created note. */
  datatype Created = Created(amount: Fe, asset: Fe, blinding: Fe, ownerPk: Fe)

  function CreatedNote(o: Created): NoteData {
    NoteData(o.amount, o.asset, o.blinding, o.ownerPk)
  }

  /** A note of amount 0 is a dummy. */
  function IsReal(amount: Fe): Fe {
    Red(1 - IsZero(amount))
  }

  lemma RealMeans(amount: Fe)
    ensures IsReal(amount) == if amount == 0 then 0 else 1
  {
    RedSmall(1 - IsZero(amount));
  }

  // ---- inputs and outputs --------------------------------------------------------------------

  /** A real input is proved like any note; the path of a dummy is free and its nullifier is 0. */
  predicate SpendsInput(hs: Hashes, h: Hash2, depth: nat, root: nat, nf: nat, w: Owned) {
    && w.amount < TWO_64
    && |w.path| == |w.sides| == depth
    && (forall k :: 0 <= k < depth ==> w.sides[k] <= 1)
    && (Fold(h, NoteCm(hs, NoteOf(hs, w)), w.path, w.sides) - root) * IsReal(w.amount) == 0
    && nf == IsReal(w.amount) * Nullifier(hs, w.ownerSk, w.leafIndex, NoteCm(hs, NoteOf(hs, w)))
  }

  lemma SpentInputMeans(hs: Hashes, h: Hash2, depth: nat, root: nat, nf: nat, w: Owned)
    requires SpendsInput(hs, h, depth, root, nf, w)
    ensures if w.amount == 0 then nf == 0 else Proves(hs, h, depth, root, nf, w)
  {
    RealMeans(w.amount);
  }

  /** A real output is committed to; the commitment of a dummy is 0. */
  predicate CreatesOutput(hs: Hashes, cm: nat, o: Created) {
    o.amount < TWO_64 && cm == IsReal(o.amount) * NoteCm(hs, CreatedNote(o))
  }

  lemma CreatedOutputMeans(hs: Hashes, cm: nat, o: Created)
    requires CreatesOutput(hs, cm, o)
    ensures cm == if o.amount == 0 then 0 else NoteCm(hs, CreatedNote(o))
  {
    RealMeans(o.amount);
  }

  // ---- transfers -----------------------------------------------------------------------------

  /** Two real notes have the same asset. */
  predicate AssetsMatch(asset: Fe, amount: Fe, otherAsset: Fe, otherAmount: Fe) {
    Red(Red(Red(asset - otherAsset) * IsReal(amount)) * IsReal(otherAmount)) == 0
  }

  lemma AssetsMatchMeans(asset: Fe, amount: Fe, otherAsset: Fe, otherAmount: Fe)
    ensures AssetsMatch(asset, amount, otherAsset, otherAmount)
            <==> amount == 0 || otherAmount == 0 || asset == otherAsset
  {
    RealMeans(amount);
    RealMeans(otherAmount);
    EqualMeaning(asset, otherAsset);
    var diff := Red(asset - otherAsset);
    BitTimes(IsReal(amount), diff);
    BitTimes(IsReal(otherAmount), Red(diff * IsReal(amount)));
    RedSmall(diff);
    RedSmall(0);
  }

  predicate TransferConstraints(in0: Owned, in1: Owned, out0: Created, out1: Created, publicAmount: Fe) {
    && in0.amount < TWO_64 && in1.amount < TWO_64 && out0.amount < TWO_64 && out1.amount < TWO_64
    && Red(in0.amount + in1.amount) == Red(Red(out0.amount + out1.amount) + publicAmount)
    && AssetsMatch(in0.asset, in0.amount, in1.asset, in1.amount)
    && AssetsMatch(in0.asset, in0.amount, out0.asset, out0.amount)
    && AssetsMatch(in0.asset, in0.amount, out1.asset, out1.amount)
    && AssetsMatch(in1.asset, in1.amount, out0.asset, out0.amount)
    && AssetsMatch(in1.asset, in1.amount, out1.asset, out1.amount)
  }

  /** [root, nf_in_0, nf_in_1, cm_out_0, cm_out_1, public_amount] */
  predicate SatisfiesTransfer(hs: Hashes, h: Hash2, depth: nat, inputs: seq<nat>, in0: Owned, in1: Owned, out0: Created,
                              out1: Created)
  {
    && |inputs| == 6 && inputs[5] < P
    && SpendsInput(hs, h, depth, inputs[0], inputs[1], in0) && SpendsInput(hs, h, depth, inputs[0], inputs[2], in1)
    && CreatesOutput(hs, inputs[3], out0) && CreatesOutput(hs, inputs[4], out1)
    && TransferConstraints(in0, in1, out0, out1, inputs[5])
  }

  /** The amount, or 0 when it is of another asset. */
  function AmountOf(amount: nat, asset: nat, of: nat): nat {
    if asset == of then amount else 0
  }

  predicate AllOf(in0: Owned, in1: Owned, out0: Created, out1: Created, asset: nat) {
    && (in0.amount == 0 || in0.asset == asset) && (in1.amount == 0 || in1.asset == asset)
    && (out0.amount == 0 || out0.asset == asset) && (out1.amount == 0 || out1.asset == asset)
  }

  lemma SumsAgree(a: nat, b: nat, c: nat, d: nat)
    requires a < TWO_64 && b < TWO_64 && c < TWO_64 && d < TWO_64
    ensures Red(a + b) == Red(Red(c + d) + 0) <==> a + b == c + d
    ensures Red(a + b) == Red(c + d) <==> a + b == c + d
  {
    RedSmall(a + b);
    RedSmall(c + d);
    RedSmall(Red(c + d));
  }

  /** Without a public amount the circuit accepts exactly 64-bit transfers of a single asset that keep its total. */
  lemma TransferConstraintsMean(in0: Owned, in1: Owned, out0: Created, out1: Created)
    ensures TransferConstraints(in0, in1, out0, out1, 0)
            <==> && in0.amount < TWO_64 && in1.amount < TWO_64 && out0.amount < TWO_64 && out1.amount < TWO_64
                 && in0.amount + in1.amount == out0.amount + out1.amount
                 && exists asset :: AllOf(in0, in1, out0, out1, asset)
  {
    AssetsMatchMeans(in0.asset, in0.amount, in1.asset, in1.amount);
    AssetsMatchMeans(in0.asset, in0.amount, out0.asset, out0.amount);
    AssetsMatchMeans(in0.asset, in0.amount, out1.asset, out1.amount);
    AssetsMatchMeans(in1.asset, in1.amount, out0.asset, out0.amount);
    AssetsMatchMeans(in1.asset, in1.amount, out1.asset, out1.amount);
    if in0.amount < TWO_64 && in1.amount < TWO_64 && out0.amount < TWO_64 && out1.amount < TWO_64 {
      SumsAgree(in0.amount, in1.amount, out0.amount, out1.amount);
    }
    if TransferConstraints(in0, in1, out0, out1, 0) {
      assert AllOf(in0, in1, out0, out1, if in0.amount == 0 then in1.asset else in0.asset);
    }
  }

  /** So of every asset as much comes out as went in. */
  lemma TransferKeepsEachAsset(in0: Owned, in1: Owned, out0: Created, out1: Created, asset: nat)
    requires TransferConstraints(in0, in1, out0, out1, 0)
    ensures AmountOf(in0.amount, in0.asset, asset) + AmountOf(in1.amount, in1.asset, asset)
            == AmountOf(out0.amount, out0.asset, asset) + AmountOf(out1.amount, out1.asset, asset)
  {
    TransferConstraintsMean(in0, in1, out0, out1);
    var common :| AllOf(in0, in1, out0, out1, common);
  }

  // ---- withdrawals -----------------------------------------------------------------------------

  /** A real note has the public asset. */
  predicate HasAsset(asset: Fe, amount: Fe, publicAsset: Fe) {
    Red(Red(asset - publicAsset) * IsReal(amount)) == 0
  }

  lemma HasAssetMeans(asset: Fe, amount: Fe, publicAsset: Fe)
    ensures HasAsset(asset, amount, publicAsset) <==> amount == 0 || asset == publicAsset
  {
    RealMeans(amount);
    EqualMeaning(asset, publicAsset);
    BitTimes(IsReal(amount), Red(asset - publicAsset));
    RedSmall(Red(asset - publicAsset));
  }

  predicate WithdrawConstraints(in0: Owned, in1: Owned, change: Created, publicAmount: Fe, publicAsset: Fe) {
    && in0.amount < TWO_64 && in1.amount < TWO_64 && publicAmount < TWO_64 && change.amount < TWO_64
    && Red(in0.amount + in1.amount) == Red(publicAmount + change.amount)
    && HasAsset(in0.asset, in0.amount, publicAsset) && HasAsset(in1.asset, in1.amount, publicAsset)
    && HasAsset(change.asset, change.amount, publicAsset)
  }

  /** [root, nf_in_0, nf_in_1, cm_change, public_amount, asset_id, recipient_hash] */
  predicate SatisfiesWithdraw(hs: Hashes, h: Hash2, depth: nat, inputs: seq<nat>, in0: Owned, in1: Owned,
                              change: Created)
  {
    && |inputs| == 7 && inputs[4] < P && inputs[5] < P
    && SpendsInput(hs, h, depth, inputs[0], inputs[1], in0) && SpendsInput(hs, h, depth, inputs[0], inputs[2], in1)
    && CreatesOutput(hs, inputs[3], change)
    && WithdrawConstraints(in0, in1, change, inputs[4], inputs[5])
  }

  /** The circuit accepts exactly 64-bit withdrawals of the public asset that pay out what the change leaves. */
  lemma WithdrawConstraintsMean(in0: Owned, in1: Owned, change: Created, publicAmount: Fe, publicAsset: Fe)
    ensures WithdrawConstraints(in0, in1, change, publicAmount, publicAsset)
            <==> && in0.amount < TWO_64 && in1.amount < TWO_64 && publicAmount < TWO_64 && change.amount < TWO_64
                 && in0.amount + in1.amount == publicAmount + change.amount
                 && (in0.amount == 0 || in0.asset == publicAsset) && (in1.amount == 0 || in1.asset == publicAsset)
                 && (change.amount == 0 || change.asset == publicAsset)
  {
    HasAssetMeans(in0.asset, in0.amount, publicAsset);
    HasAssetMeans(in1.asset, in1.amount, publicAsset);
    HasAssetMeans(change.asset, change.amount, publicAsset);
    if in0.amount < TWO_64 && in1.amount < TWO_64 && publicAmount < TWO_64 && change.amount < TWO_64 {
      SumsAgree(in0.amount, in1.amount, publicAmount, change.amount);
    }
  }

  /** So of every asset as much comes out, the public amount included, as went in. */
  lemma WithdrawKeepsEachAsset(in0: Owned, in1: Owned, change: Created, publicAmount: Fe, publicAsset: Fe, asset: nat)
    requires WithdrawConstraints(in0, in1, change, publicAmount, publicAsset)
    ensures AmountOf(in0.amount, in0.asset, asset) + AmountOf(in1.amount, in1.asset, asset)
            == AmountOf(change.amount, change.asset, asset) + AmountOf(publicAmount, publicAsset, asset)
  {
    WithdrawConstraintsMean(in0, in1, change, publicAmount, publicAsset);
  }

  // ---- deposits -----------------------------------------------------------------------------------

  /** [cm, public_amount, asp_approved_root, asp_blocked_root], without the constraints on the credential. */
  predicate SatisfiesDeposit(hs: Hashes, inputs: seq<nat>, note: Created) {
    && |inputs| == 4
    && inputs[0] == NoteCm(hs, CreatedNote(note))
    && note.amount < TWO_64 && note.amount == inputs[1]
  }
}
