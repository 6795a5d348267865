/** The notes that calls spend and create hold the same value, given a sound verifier and binding hashes. */
module Conservation {
  import opened Words
  import opened Field
  import opened Notes
  import opened Membership
  import opened NoteCircuit
  import opened CoreState
  import opened AmmState
  import opened System
  import opened OrderSafety
  import opened ReserveSafety
  import opened TransferCircuit
  import BatchCircuit
  import BatchSafety
  import Liquidity
  import Outcomes

  // ---- transfers and withdrawals -----------------------------------------------------------------

  /** A true answer of the verifier means that some witness satisfies the circuit of the key. */
  ghost predicate SoundTransfers(cfg: Config, hs: Hashes) {
    && (forall proof, inputs :: cfg.verify(VkId.Transfer, proof, inputs) == Ok(true) ==>
                                  exists in0, in1, out0, out1 ::
                                    SatisfiesTransfer(hs, cfg.h, cfg.depth, Fields(hs, inputs), in0, in1, out0, out1))
    && (forall proof, inputs :: cfg.verify(VkId.Withdraw, proof, inputs) == Ok(true) ==>
                                  exists in0, in1, change ::
                                    SatisfiesWithdraw(hs, cfg.h, cfg.depth, Fields(hs, inputs), in0, in1, change))
    && (forall proof, inputs :: cfg.verify(VkId.Deposit, proof, inputs) == Ok(true) ==>
                                  exists note :: SatisfiesDeposit(hs, Fields(hs, inputs), note))
  }

  /** The nullifier is one of this note of the tree, or is read as 0 and stands for none. */
  ghost predicate SpendsNote(hs: Hashes, leaves: seq<Leaf>, nf: nat, n: Option<NoteData>) {
    match n
    case None => hs.read(nf) == 0
    case Some(note) => IsNoteOf(hs, nf, note) && InTree(hs, leaves, NoteCm(hs, note))
  }

  /** The commitment is to this note, or is read as 0 and stands for none. */
  predicate CreatesNote(hs: Hashes, cm: nat, n: Option<NoteData>) {
    match n
    case None => hs.read(cm) == 0
    case Some(note) => cm != 0 && hs.read(cm) == NoteCm(hs, note)
  }

  /** What the note holds of the asset. */
  function Value(n: Option<NoteData>, asset: nat): nat {
    match n
    case None => 0
    case Some(note) => AmountOf(note.amount, note.assetId, asset)
  }

  function InputNote(hs: Hashes, w: Owned): Option<NoteData> {
    if w.amount == 0 then None else Some(NoteOf(hs, w))
  }

  function OutputNote(o: Created): Option<NoteData> {
    if o.amount == 0 then None else Some(CreatedNote(o))
  }

  lemma InputIsSpent(cfg: Config, hs: Hashes, core: Core, root: nat, nf: nat, w: Owned)
    requires BindingTrees(cfg, hs) && RootIsKnown(cfg, core, root)
    requires SpendsInput(hs, cfg.h, cfg.depth, hs.read(root), hs.read(nf), w)
    ensures SpendsNote(hs, core.leaves, nf, InputNote(hs, w))
  {
    SpentInputMeans(hs, cfg.h, cfg.depth, hs.read(root), hs.read(nf), w);
    if w.amount != 0 {
      ProvedNoteIsInTree(cfg, hs, core, root, hs.read(nf), w);
      ProvedNullifier(hs, cfg.h, cfg.depth, hs.read(root), nf, w);
    }
  }

  lemma OutputIsCreated(hs: Hashes, cm: nat, o: Created)
    requires Binding(hs) && Reads(hs) && CreatesOutput(hs, hs.read(cm), o)
    ensures CreatesNote(hs, cm, OutputNote(o))
  {
    CreatedOutputMeans(hs, hs.read(cm), o);
    assert hs.read(0) == 0;
  }

  lemma NotesHold(hs: Hashes, w: Owned, o: Created, asset: nat)
    ensures Value(InputNote(hs, w), asset) == AmountOf(w.amount, w.asset, asset)
    ensures Value(OutputNote(o), asset) == AmountOf(o.amount, o.asset, asset)
  {}

  function TransferInputs(pub: TransferPublic): seq<nat> {
    [pub.root, pub.nfIn0, pub.nfIn1, pub.cmOut0, pub.cmOut1, pub.publicAmount]
  }

  lemma TransferVerified(cfg: Config, s: Sys, c: Call)
    requires c.Transfer? && Apply(cfg, s, c).Some?
    ensures RootIsKnown(cfg, s.core, c.transferPub.root) && c.transferPub.publicAmount == 0
    ensures cfg.verify(VkId.Transfer, c.proof, TransferInputs(c.transferPub)) == Ok(true)
  {
    Outcomes.TransferSucceedsIff(cfg, s.core, c.proof, c.transferPub, c.cts);
  }

  lemma TransferWitness(cfg: Config, hs: Hashes, proof: Proof, inputs: seq<nat>)
    returns (w0: Owned, w1: Owned, o0: Created, o1: Created)
    requires SoundTransfers(cfg, hs) && cfg.verify(VkId.Transfer, proof, inputs) == Ok(true)
    ensures SatisfiesTransfer(hs, cfg.h, cfg.depth, Fields(hs, inputs), w0, w1, o0, o1)
  {
    w0, w1, o0, o1 :| SatisfiesTransfer(hs, cfg.h, cfg.depth, Fields(hs, inputs), w0, w1, o0, o1);
  }

  lemma TransferNotesOf(cfg: Config, hs: Hashes, core: Core, pub: TransferPublic, w0: Owned, w1: Owned, o0: Created,
                        o1: Created)
    requires BindingTrees(cfg, hs) && RootIsKnown(cfg, core, pub.root)
    requires SatisfiesTransfer(hs, cfg.h, cfg.depth, Fields(hs, TransferInputs(pub)), w0, w1, o0, o1)
    ensures SpendsNote(hs, core.leaves, pub.nfIn0, InputNote(hs, w0))
            && SpendsNote(hs, core.leaves, pub.nfIn1, InputNote(hs, w1))
    ensures CreatesNote(hs, pub.cmOut0, OutputNote(o0)) && CreatesNote(hs, pub.cmOut1, OutputNote(o1))
  {
    InputIsSpent(cfg, hs, core, pub.root, pub.nfIn0, w0);
    InputIsSpent(cfg, hs, core, pub.root, pub.nfIn1, w1);
    OutputIsCreated(hs, pub.cmOut0, o0);
    OutputIsCreated(hs, pub.cmOut1, o1);
  }

  /** The first two notes hold of every asset what the last two hold. */
  ghost predicate SameValue(in0: Option<NoteData>, in1: Option<NoteData>, out0: Option<NoteData>,
                            out1: Option<NoteData>)
  {
    forall asset :: Value(in0, asset) + Value(in1, asset) == Value(out0, asset) + Value(out1, asset)
  }

  lemma TransferValues(hs: Hashes, h: Hash2, depth: nat, pub: TransferPublic, w0: Owned, w1: Owned, o0: Created,
                       o1: Created)
    requires SatisfiesTransfer(hs, h, depth, Fields(hs, TransferInputs(pub)), w0, w1, o0, o1)
    requires pub.publicAmount == hs.read(0) == 0
    ensures SameValue(InputNote(hs, w0), InputNote(hs, w1), OutputNote(o0), OutputNote(o1))
  {
    forall asset: nat
      ensures Value(InputNote(hs, w0), asset) + Value(InputNote(hs, w1), asset)
              == Value(OutputNote(o0), asset) + Value(OutputNote(o1), asset)
    {
      TransferKeepsEachAsset(w0, w1, o0, o1, asset);
      NotesHold(hs, w0, o0, asset);
      NotesHold(hs, w1, o1, asset);
    }
  }

  lemma VerifiedTransfer(cfg: Config, hs: Hashes, core: Core, proof: Proof, pub: TransferPublic)
    returns (in0: Option<NoteData>, in1: Option<NoteData>, out0: Option<NoteData>, out1: Option<NoteData>)
    requires BindingTrees(cfg, hs) && SoundTransfers(cfg, hs) && RootIsKnown(cfg, core, pub.root)
    requires pub.publicAmount == 0 && cfg.verify(VkId.Transfer, proof, TransferInputs(pub)) == Ok(true)
    ensures SpendsNote(hs, core.leaves, pub.nfIn0, in0) && SpendsNote(hs, core.leaves, pub.nfIn1, in1)
    ensures CreatesNote(hs, pub.cmOut0, out0) && CreatesNote(hs, pub.cmOut1, out1) && SameValue(in0, in1, out0, out1)
  {
    var w0, w1, o0, o1 := TransferWitness(cfg, hs, proof, TransferInputs(pub));
    assert hs.read(0) == 0;
    TransferValues(hs, cfg.h, cfg.depth, pub, w0, w1, o0, o1);
    TransferNotesOf(cfg, hs, core, pub, w0, w1, o0, o1);
    in0, in1, out0, out1 := InputNote(hs, w0), InputNote(hs, w1), OutputNote(o0), OutputNote(o1);
  }

  /** A transfer creates notes that hold of every asset exactly what the notes it spends hold. */
  lemma TransferConserves(cfg: Config, hs: Hashes, s: Sys, c: Call)
    returns (in0: Option<NoteData>, in1: Option<NoteData>, out0: Option<NoteData>, out1: Option<NoteData>)
    requires BindingTrees(cfg, hs) && SoundTransfers(cfg, hs)
    requires c.Transfer? && Apply(cfg, s, c).Some?
    ensures SpendsNote(hs, s.core.leaves, c.transferPub.nfIn0, in0)
            && SpendsNote(hs, s.core.leaves, c.transferPub.nfIn1, in1)
    ensures CreatesNote(hs, c.transferPub.cmOut0, out0) && CreatesNote(hs, c.transferPub.cmOut1, out1)
    ensures SameValue(in0, in1, out0, out1)
  {
    TransferVerified(cfg, s, c);
    in0, in1, out0, out1 := VerifiedTransfer(cfg, hs, s.core, c.proof, c.transferPub);
  }

  /** The tokens that the contract moves for a public amount: its last eight bytes. */
  function Tokens(publicAmount: nat): nat {
    publicAmount % TWO_64
  }

  lemma CanonicalAmount(hs: Hashes, publicAmount: nat)
    requires Reads(hs) && hs.read(publicAmount) < TWO_64 && publicAmount < P
    ensures hs.read(publicAmount) == Tokens(publicAmount)
  {}

  /** The tokens moved are what the circuit reads exactly when the two differ by a multiple of 2^64. */
  lemma TokensMatchIff(hs: Hashes, publicAmount: nat)
    requires hs.read(publicAmount) < TWO_64
    ensures Tokens(publicAmount) == hs.read(publicAmount)
            <==> (publicAmount - hs.read(publicAmount)) % 0x1_0000_0000_0000_0000 == 0
  {}

  function WithdrawInputs(pub: WithdrawPublic): seq<nat> {
    [pub.root, pub.nfIn0, pub.nfIn1, pub.cmChange, pub.publicAmount, pub.assetId, pub.recipientHash]
  }

  lemma WithdrawVerified(cfg: Config, s: Sys, c: Call)
    requires c.Withdraw? && Apply(cfg, s, c).Some?
    ensures RootIsKnown(cfg, s.core, c.withdrawPub.root)
    ensures cfg.verify(VkId.Withdraw, c.proof, WithdrawInputs(c.withdrawPub)) == Ok(true)
  {
    Outcomes.WithdrawSucceedsIff(cfg, s.core, c.proof, c.withdrawPub, c.ct);
  }

  lemma WithdrawWitness(cfg: Config, hs: Hashes, proof: Proof, inputs: seq<nat>)
    returns (w0: Owned, w1: Owned, o: Created)
    requires SoundTransfers(cfg, hs) && cfg.verify(VkId.Withdraw, proof, inputs) == Ok(true)
    ensures SatisfiesWithdraw(hs, cfg.h, cfg.depth, Fields(hs, inputs), w0, w1, o)
  {
    w0, w1, o :| SatisfiesWithdraw(hs, cfg.h, cfg.depth, Fields(hs, inputs), w0, w1, o);
  }

  lemma WithdrawNotesOf(cfg: Config, hs: Hashes, core: Core, pub: WithdrawPublic, w0: Owned, w1: Owned, o: Created)
    requires BindingTrees(cfg, hs) && RootIsKnown(cfg, core, pub.root)
    requires SatisfiesWithdraw(hs, cfg.h, cfg.depth, Fields(hs, WithdrawInputs(pub)), w0, w1, o)
    ensures SpendsNote(hs, core.leaves, pub.nfIn0, InputNote(hs, w0))
            && SpendsNote(hs, core.leaves, pub.nfIn1, InputNote(hs, w1))
    ensures CreatesNote(hs, pub.cmChange, OutputNote(o))
  {
    InputIsSpent(cfg, hs, core, pub.root, pub.nfIn0, w0);
    InputIsSpent(cfg, hs, core, pub.root, pub.nfIn1, w1);
    OutputIsCreated(hs, pub.cmChange, o);
  }

  lemma WithdrawValues(hs: Hashes, h: Hash2, depth: nat, inputs: seq<nat>, w0: Owned, w1: Owned, o: Created,
                       asset: nat)
    requires SatisfiesWithdraw(hs, h, depth, inputs, w0, w1, o)
    ensures Value(InputNote(hs, w0), asset) + Value(InputNote(hs, w1), asset)
            == Value(OutputNote(o), asset) + AmountOf(inputs[4], inputs[5], asset)
  {
    WithdrawKeepsEachAsset(w0, w1, o, inputs[4], inputs[5], asset);
    NotesHold(hs, w0, o, asset);
    NotesHold(hs, w1, o, asset);
  }

  lemma VerifiedWithdrawal(cfg: Config, hs: Hashes, core: Core, proof: Proof, pub: WithdrawPublic)
    returns (in0: Option<NoteData>, in1: Option<NoteData>, change: Option<NoteData>)
    requires BindingTrees(cfg, hs) && SoundTransfers(cfg, hs) && RootIsKnown(cfg, core, pub.root)
    requires cfg.verify(VkId.Withdraw, proof, WithdrawInputs(pub)) == Ok(true)
    ensures SpendsNote(hs, core.leaves, pub.nfIn0, in0) && SpendsNote(hs, core.leaves, pub.nfIn1, in1)
    ensures CreatesNote(hs, pub.cmChange, change) && hs.read(pub.publicAmount) < TWO_64
    ensures forall asset :: Value(in0, asset) + Value(in1, asset)
                            == Value(change, asset) + AmountOf(hs.read(pub.publicAmount), hs.read(pub.assetId), asset)
  {
    var w0, w1, o := WithdrawWitness(cfg, hs, proof, WithdrawInputs(pub));
    WithdrawNotesOf(cfg, hs, core, pub, w0, w1, o);
    in0, in1, change := InputNote(hs, w0), InputNote(hs, w1), OutputNote(o);
    var inputs := Fields(hs, WithdrawInputs(pub));
    assert inputs[4] == hs.read(pub.publicAmount) && inputs[5] == hs.read(pub.assetId);
    forall asset
      ensures Value(in0, asset) + Value(in1, asset) == Value(change, asset) + AmountOf(inputs[4], inputs[5], asset)
    {
      WithdrawValues(hs, cfg.h, cfg.depth, inputs, w0, w1, o, asset);
    }
  }

  /**
   * A withdrawal spends notes that hold, of every asset, what the change holds and what the public amount is read as.
   * The tokens paid out make up the difference exactly when the amount is read as its last eight bytes, which it is
   * when it is below the order of the field.
   */
  lemma WithdrawalConserves(cfg: Config, hs: Hashes, s: Sys, c: Call)
    returns (in0: Option<NoteData>, in1: Option<NoteData>, change: Option<NoteData>)
    requires BindingTrees(cfg, hs) && SoundTransfers(cfg, hs)
    requires c.Withdraw? && Apply(cfg, s, c).Some?
    ensures SpendsNote(hs, s.core.leaves, c.withdrawPub.nfIn0, in0)
            && SpendsNote(hs, s.core.leaves, c.withdrawPub.nfIn1, in1)
    ensures CreatesNote(hs, c.withdrawPub.cmChange, change)
    ensures var pub, paid := c.withdrawPub, hs.read(c.withdrawPub.publicAmount);
            && (forall asset :: Value(in0, asset) + Value(in1, asset)
                                == Value(change, asset) + AmountOf(paid, hs.read(pub.assetId), asset))
            && (pub.publicAmount < P ==> paid == Tokens(pub.publicAmount))
  {
    WithdrawVerified(cfg, s, c);
    in0, in1, change := VerifiedWithdrawal(cfg, hs, s.core, c.proof, c.withdrawPub);
    if c.withdrawPub.publicAmount < P {
      CanonicalAmount(hs, c.withdrawPub.publicAmount);
    }
  }

  /** A deposit appends a note of exactly the amount that its public amount is read as. */
  lemma DepositCreatesItsAmount(cfg: Config, hs: Hashes, s: Sys, c: Call, n: NoteData)
    requires BindingTrees(cfg, hs) && SoundTransfers(cfg, hs)
    requires c.Deposit? && Apply(cfg, s, c).Some? && hs.read(c.depositPub.cm) == NoteCm(hs, n)
    ensures Apply(cfg, s, c).value.core.leaves == s.core.leaves + [Leaf(c.depositPub.cm, c.ct)]
    ensures n.amount == hs.read(c.depositPub.publicAmount) < TWO_64
    ensures c.depositPub.publicAmount < P ==> n.amount == Tokens(c.depositPub.publicAmount)
  {
    var pub := c.depositPub;
    Outcomes.DepositSucceedsIff(cfg, s.core, c.aspAccepts, c.proof, pub, c.ct);
    var inputs := [pub.cm, pub.publicAmount, pub.aspApprovedRoot, pub.aspBlockedRoot];
    var note :| SatisfiesDeposit(hs, Fields(hs, inputs), note);
    OpeningIsUnique(hs, n, CreatedNote(note));
  }

  // ---- liquidity ---------------------------------------------------------------------------------

  lemma AddChanges(cfg: Config, s: Sys, c: Call)
    requires c.AddLp? && Apply(cfg, s, c).Some?
    ensures RootIsKnown(cfg, s.core, c.root)
    ensures Apply(cfg, s, c).value.core == Outcomes.Moved(s.core, {c.nfIn0, c.nfIn1}, [Leaf(c.lpCommit, c.ct)])
  {
    Outcomes.AddLiquiditySucceedsIff(cfg, World(s.core, s.amm), c.proof, c.root, c.nfIn0, c.nfIn1, c.lpCommit, c.ct,
                                     c.postCm, c.postEnc);
  }

  lemma RemoveChanges(cfg: Config, s: Sys, c: Call)
    requires c.RemoveLp? && Apply(cfg, s, c).Some?
    ensures RootIsKnown(cfg, s.core, c.root)
    ensures Apply(cfg, s, c).value.core.spent == s.core.spent + {c.lpNf}
    ensures Apply(cfg, s, c).value.core.leaves
            == s.core.leaves + (Outcomes.OutputLeaf(c.cmOut0, c.ct0) + Outcomes.OutputLeaf(c.cmOut1, c.ct1))
  {
    Outcomes.RemoveLiquiditySucceedsIff(cfg, World(s.core, s.amm), c.proof, c.root, c.lpNf, c.cmOut0, c.cmOut1, c.ct0,
                                        c.ct1, c.postCm, c.postEnc, c.lpCommit);
  }

  /**
   * A deposit of liquidity spends two notes of the tree whose amounts are what the two committed reserves grow by, and
   * appends one note, of exactly the shares by which the committed total grows.
   */
  lemma LiquidityMintsItsShares(cfg: Config, hs: Hashes, s: Sys, c: Call)
    returns (in0: NoteData, in1: NoteData, minted: NoteData, pre: Reserves, post: Reserves)
    requires BindingTrees(cfg, hs) && SoundPool(cfg, hs, s.amm.k)
    requires c.AddLp? && Apply(cfg, s, c).Some?
    ensures SpendsNote(hs, s.core.leaves, c.nfIn0, Some(in0)) && SpendsNote(hs, s.core.leaves, c.nfIn1, Some(in1))
    ensures Apply(cfg, s, c).value.core
            == Outcomes.Moved(s.core, {c.nfIn0, c.nfIn1}, [Leaf(c.lpCommit, c.ct)])
    ensures forall n :: hs.read(c.lpCommit) == NoteCm(hs, n) <==> n == minted
    ensures Holds(hs, s.amm, pre) && Holds(hs, Apply(cfg, s, c).value.amm, post)
    ensures post.a == pre.a + in0.amount && post.b == pre.b + in1.amount && post.shares == pre.shares + minted.amount
    ensures Liquidity.Adds(pre, post, in0.amount, in1.amount, minted.amount)
  {
    AddChanges(cfg, s, c);
    var w, w0, w1, share := AddWitness(cfg, hs, s, c);
    in0, in1, pre, post := NoteOf(hs, w0), NoteOf(hs, w1), w.pre, w.post;
    minted := NoteData(w.shares, share.asset, share.blinding, share.ownerPk);
    ProvedNoteIsInTree(cfg, hs, s.core, c.root, hs.read(c.nfIn0), w0);
    ProvedNoteIsInTree(cfg, hs, s.core, c.root, hs.read(c.nfIn1), w1);
    ProvedNullifier(hs, cfg.h, cfg.depth, hs.read(c.root), c.nfIn0, w0);
    ProvedNullifier(hs, cfg.h, cfg.depth, hs.read(c.root), c.nfIn1, w1);
    OnlyOpening(hs, c.lpCommit, minted);
    assert Opens(hs, s.amm, pre, w.preBlinding) && Opens(hs, Apply(cfg, s, c).value.amm, post, w.postBlinding);
  }

  lemma OnlyOpening(hs: Hashes, cm: nat, m: NoteData)
    requires Binding(hs) && Reads(hs) && hs.read(cm) == NoteCm(hs, m)
    ensures forall n :: hs.read(cm) == NoteCm(hs, n) <==> n == m
    ensures cm != 0
  {
    assert hs.read(0) == 0;
    forall n | hs.read(cm) == NoteCm(hs, n)
      ensures n == m
    {
      OpeningIsUnique(hs, n, m);
    }
  }

  /**
   * A withdrawal of liquidity burns one note of the tree, of exactly the shares by which the committed total falls, and
   * appends two notes, of exactly the amounts by which the committed reserves fall.
   */
  lemma LiquidityBurnsItsShares(cfg: Config, hs: Hashes, s: Sys, c: Call)
    returns (burned: NoteData, out0: NoteData, out1: NoteData, pre: Reserves, post: Reserves)
    requires BindingTrees(cfg, hs) && SoundPool(cfg, hs, s.amm.k)
    requires c.RemoveLp? && Apply(cfg, s, c).Some?
    ensures SpendsNote(hs, s.core.leaves, c.lpNf, Some(burned)) && c.lpNf in Apply(cfg, s, c).value.core.spent
    ensures Apply(cfg, s, c).value.core.leaves == s.core.leaves + [Leaf(c.cmOut0, c.ct0), Leaf(c.cmOut1, c.ct1)]
    ensures forall n :: hs.read(c.cmOut0) == NoteCm(hs, n) <==> n == out0
    ensures forall n :: hs.read(c.cmOut1) == NoteCm(hs, n) <==> n == out1
    ensures Holds(hs, s.amm, pre) && Holds(hs, Apply(cfg, s, c).value.amm, post)
    ensures pre.a == post.a + out0.amount && pre.b == post.b + out1.amount && pre.shares == post.shares + burned.amount
    ensures Liquidity.Removes(pre, post, out0.amount, out1.amount, burned.amount)
  {
    RemoveChanges(cfg, s, c);
    var w, share, o0, o1 := RemoveWitness(cfg, hs, s, c);
    burned, pre, post := NoteOf(hs, share), w.pre, w.post;
    out0 := NoteData(w.amount0, o0.asset, o0.blinding, o0.ownerPk);
    out1 := NoteData(w.amount1, o1.asset, o1.blinding, o1.ownerPk);
    ProvedNoteIsInTree(cfg, hs, s.core, c.root, hs.read(c.lpNf), share);
    ProvedNullifier(hs, cfg.h, cfg.depth, hs.read(c.root), c.lpNf, share);
    OnlyOpening(hs, c.cmOut0, out0);
    OnlyOpening(hs, c.cmOut1, out1);
    assert Opens(hs, s.amm, pre, w.preBlinding) && Opens(hs, Apply(cfg, s, c).value.amm, post, w.postBlinding);
  }

  // ---- settlements --------------------------------------------------------------------------------

  /** What the notes hold of the asset. */
  function TotalOf(notes: seq<NoteData>, asset: nat): nat {
    if notes == [] then 0
    else
      var n := |notes| - 1;
      TotalOf(notes[..n], asset) + AmountOf(notes[n].amount, notes[n].assetId, asset)
  }

  /** The amounts of the notes sold for the asset: note j is sold for payment j. */
  function TotalSoldFor(sold: seq<NoteData>, payments: seq<NoteData>, asset: nat): nat
    requires |sold| == |payments|
  {
    if sold == [] then 0
    else
      var n := |sold| - 1;
      TotalSoldFor(sold[..n], payments[..n], asset) + AmountOf(sold[n].amount, payments[n].assetId, asset)
  }

  lemma {:induction false} PaymentsTotal(orders: seq<BatchCircuit.Order>, fills: seq<BatchCircuit.Fill>,
                                         payments: seq<NoteData>, asset: Fe)
    requires |payments| == |orders| == |fills|
    requires forall j :: 0 <= j < |orders| ==> payments[j] == PaymentTo(orders[j], fills[j].amountOut)
    ensures TotalOf(payments, asset) == BatchCircuit.TotalOut(orders, BatchCircuit.Outs(fills), asset)
  {
    if orders != [] {
      var n := |orders| - 1;
      PaymentsTotal(orders[..n], fills[..n], payments[..n], asset);
      assert BatchCircuit.Outs(fills)[..n] == BatchCircuit.Outs(fills[..n]);
    }
  }

  lemma {:induction false} SoldTotal(orders: seq<BatchCircuit.Order>, sold: seq<NoteData>, payments: seq<NoteData>,
                                     asset: Fe)
    requires |sold| == |payments| == |orders|
    requires forall j :: 0 <= j < |orders| ==>
                           sold[j].amount == orders[j].amountIn && payments[j].assetId == orders[j].assetOut
    ensures TotalSoldFor(sold, payments, asset) == BatchCircuit.TotalIn(orders, asset)
  {
    if orders != [] {
      var n := |orders| - 1;
      SoldTotal(orders[..n], sold[..n], payments[..n], asset);
    }
  }

  /** The two pool assets and the fees, and the reserves before and after. */
  datatype Exchange = Exchange(assetA: Fe, assetB: Fe, feeA: Fe, feeB: Fe, pre: Reserves, post: Reserves)

  /**
   * Of each asset, the notes sold for the other one and the reserve before are the notes paid out, the reserve after
   * and the fee.
   */
  predicate Balanced(sold: seq<NoteData>, payments: seq<NoteData>, x: Exchange) {
    && |sold| == |payments|
    && (forall j :: 0 <= j < |payments| ==>
                      (payments[j].assetId == x.assetA) != (payments[j].assetId == x.assetB))
    && TotalSoldFor(sold, payments, x.assetB) + x.pre.a == TotalOf(payments, x.assetA) + x.post.a + x.feeA
    && TotalSoldFor(sold, payments, x.assetA) + x.pre.b == TotalOf(payments, x.assetB) + x.post.b + x.feeB
    && x.post.shares == x.pre.shares
  }

  function ExchangeOf(w: BatchCircuit.Witness): Exchange {
    Exchange(w.price.assetA, w.price.assetB, w.feeA, w.feeB, w.pre, w.post)
  }

  lemma SettledIsBalanced(w: BatchCircuit.Witness, sold: seq<NoteData>, payments: seq<NoteData>)
    requires BatchCircuit.Settles(w) && |sold| == |payments| == |w.orders|
    requires forall j :: 0 <= j < |w.orders| ==>
                           && sold[j].amount == w.orders[j].amountIn
                           && payments[j] == PaymentTo(w.orders[j], w.fills[j].amountOut)
    ensures Balanced(sold, payments, ExchangeOf(w))
  {
    PaymentsTotal(w.orders, w.fills, payments, w.price.assetA);
    PaymentsTotal(w.orders, w.fills, payments, w.price.assetB);
    SoldTotal(w.orders, sold, payments, w.price.assetA);
    SoldTotal(w.orders, sold, payments, w.price.assetB);
    forall j | 0 <= j < |payments|
      ensures (payments[j].assetId == w.price.assetA) != (payments[j].assetId == w.price.assetB)
    {
      assert BatchCircuit.BuysOne(w.price, w.orders[j]);
    }
  }

  /** Note j is the one that the order in slot j spent, and payment j the one its output commits to. */
  ghost predicate SlotNotes(hs: Hashes, amm: Amm, batch: nat, cms: seq<nat>, sold: seq<NoteData>,
                            payments: seq<NoteData>)
  {
    && |sold| == |payments| == |cms| == amm.k
    && (forall j: nat :: j < amm.k ==> (batch, j) in amm.orders && IsNoteOf(hs, amm.orders[(batch, j)].nfIn, sold[j]))
    && (forall j: nat :: j < amm.k ==> hs.read(cms[j]) == NoteCm(hs, payments[j]))
  }

  lemma SlotNotesAreOfOrders(cfg: Config, hs: Hashes, s: Sys, calls: seq<Call>, after: Amm, batch: nat, cms: seq<nat>,
                             w: BatchCircuit.Witness, sold: seq<NoteData>, payments: seq<NoteData>)
    requires IsInitial(s) && BindingTrees(cfg, hs) && SoundOrders(cfg, hs)
    requires SettlementOf(hs, After(cfg, s, calls).amm, after, batch, cms, w)
    requires SlotNotes(hs, After(cfg, s, calls).amm, batch, cms, sold, payments)
    ensures forall j :: 0 <= j < |w.orders| ==>
                          && sold[j].amount == w.orders[j].amountIn
                          && payments[j] == PaymentTo(w.orders[j], w.fills[j].amountOut)
  {
    forall j | 0 <= j < |w.orders|
      ensures sold[j].amount == w.orders[j].amountIn
      ensures payments[j] == PaymentTo(w.orders[j], w.fills[j].amountOut)
    {
      var i: nat := j;
      SettlementClearsTheSpentNotes(cfg, hs, s, calls, after, batch, cms, w, i, sold[i]);
      assert hs.read(cms[i]) == NoteCm(hs, PaymentTo(w.orders[i], w.fills[i].amountOut));
      OpeningIsUnique(hs, payments[i], PaymentTo(w.orders[i], w.fills[i].amountOut));
    }
  }

  /**
   * In every reachable state, whatever notes open the nullifiers of a settled batch and the leaves it appends: of each
   * pool asset, the notes sold for the other and the committed reserve before are the notes paid out, the committed
   * reserve after and a fee.
   */
  lemma SettlementConserves(cfg: Config, hs: Hashes, s: Sys, calls: seq<Call>, c: Call, sold: seq<NoteData>,
                            payments: seq<NoteData>)
    returns (x: Exchange)
    requires IsInitial(s) && BindingTrees(cfg, hs) && SoundOrders(cfg, hs) && SoundPool(cfg, hs, s.amm.k)
    requires c.Settle? && Apply(cfg, After(cfg, s, calls), c).Some?
    requires SlotNotes(hs, After(cfg, s, calls).amm, c.batch, OutputCms(c.outputs), sold, payments)
    ensures var before, after := After(cfg, s, calls), Apply(cfg, After(cfg, s, calls), c).value;
            && Cms(after.core.leaves) == Cms(before.core.leaves) + OutputCms(c.outputs)
            && Holds(hs, before.amm, x.pre) && Holds(hs, after.amm, x.post) && Balanced(sold, payments, x)
  {
    var t := After(cfg, s, calls);
    SizeStays(cfg, s, calls, |calls|);
    assert calls[..|calls|] == calls;
    SettleAppends(cfg, t, c);
    var w := SettleWitness(cfg, hs, t, c);
    SlotNotesAreOfOrders(cfg, hs, s, calls, Apply(cfg, t, c).value.amm, c.batch, OutputCms(c.outputs), w, sold,
                         payments);
    SettledIsBalanced(w, sold, payments);
    x := ExchangeOf(w);
    assert Opens(hs, t.amm, w.pre, w.preBlinding);
    assert Opens(hs, Apply(cfg, t, c).value.amm, w.post, w.postBlinding);
  }

  /** Of each asset, what the notes themselves hold of it: spent, paid out, in the reserve and kept as fee. */
  predicate ConservesEachAsset(sold: seq<NoteData>, payments: seq<NoteData>, x: Exchange) {
    && TotalOf(sold, x.assetA) + x.pre.a == TotalOf(payments, x.assetA) + x.post.a + x.feeA
    && TotalOf(sold, x.assetB) + x.pre.b == TotalOf(payments, x.assetB) + x.post.b + x.feeB
  }

  /** Each note sold is of the pool asset that it is not sold for. */
  predicate SellsTheOther(sold: seq<NoteData>, payments: seq<NoteData>, x: Exchange)
    requires |sold| == |payments|
  {
    forall j :: 0 <= j < |sold| ==>
                  && (sold[j].assetId == x.assetA <==> payments[j].assetId == x.assetB)
                  && (sold[j].assetId == x.assetB <==> payments[j].assetId == x.assetA)
  }

  lemma {:induction false} SoldForIsHeld(sold: seq<NoteData>, payments: seq<NoteData>, x: Exchange)
    requires |sold| == |payments| && SellsTheOther(sold, payments, x)
    ensures TotalOf(sold, x.assetA) == TotalSoldFor(sold, payments, x.assetB)
    ensures TotalOf(sold, x.assetB) == TotalSoldFor(sold, payments, x.assetA)
  {
    if sold != [] {
      var n := |sold| - 1;
      SoldForIsHeld(sold[..n], payments[..n], x);
    }
  }

  /**
   * A balanced exchange conserves each asset exactly when the notes hold of it what was sold as it, as they do when
   * each order sells a note of the other pool asset.
   */
  lemma ConservesEachAssetIff(sold: seq<NoteData>, payments: seq<NoteData>, x: Exchange)
    requires Balanced(sold, payments, x)
    ensures ConservesEachAsset(sold, payments, x)
            <==> && TotalOf(sold, x.assetA) == TotalSoldFor(sold, payments, x.assetB)
                 && TotalOf(sold, x.assetB) == TotalSoldFor(sold, payments, x.assetA)
    ensures SellsTheOther(sold, payments, x) ==> ConservesEachAsset(sold, payments, x)
  {
    if SellsTheOther(sold, payments, x) {
      SoldForIsHeld(sold, payments, x);
    }
  }

  /** 100 units of a third asset, sold as 100 of the first for 90 of the second: balanced, and not conserved. */
  lemma ThirdAssetIsSold()
    ensures var sold, payments := [NoteData(100, 3, 0, 0)], [NoteData(90, 2, 0, 0)];
            var x := Exchange(1, 2, 0, 0, BatchCircuit.Reserves(1000, 1000, 1000),
                              BatchCircuit.Reserves(1100, 910, 1000));
            Balanced(sold, payments, x) && !ConservesEachAsset(sold, payments, x)
  {
    var sold: seq<NoteData>, payments := [NoteData(100, 3, 0, 0)], [NoteData(90, 2, 0, 0)];
    assert sold[..0] == [] && payments[..0] == [];
    assert TotalSoldFor(sold, payments, 2) == 100 && TotalSoldFor(sold, payments, 1) == 0;
    assert TotalOf(payments, 1) == 0 && TotalOf(payments, 2) == 90 && TotalOf(sold, 1) == 0;
  }

  /**
   * An order that a settlement excludes is paid nothing, what it paid in is counted like that of the others, and no
   * later call refunds it.
   */
  lemma ExcludedOrderIsNeverRefunded(cfg: Config, hs: Hashes, s: Sys, calls: seq<Call>, i: nat, k: nat, slot: nat)
    returns (w: BatchCircuit.Witness)
    requires IsInitial(s) && SoundPool(cfg, hs, s.amm.k)
    requires i < k < |calls| && slot < s.amm.k && calls[i].Settle? && Succeeds(cfg, s, calls, i)
    ensures SettlementOf(hs, At(cfg, s, calls, i).amm, At(cfg, s, calls, i + 1).amm, calls[i].batch,
                         OutputCms(calls[i].outputs), w)
    ensures w.fills[slot].isExcluded == 1 ==> w.fills[slot].amountOut == 0
    ensures !BatchSafety.RefundsAt(cfg, s, calls, k, calls[i].batch, slot)
  {
    SizeStays(cfg, s, calls, i);
    AtStep(cfg, s, calls, i);
    w := SettleWitness(cfg, hs, At(cfg, s, calls, i), calls[i]);
    BatchSafety.NoRefundAfterSettle(cfg, s, calls, i, k, calls[i].batch, slot);
  }
}
