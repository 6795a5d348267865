/** A transfer that spends one note twice, and the constraint under which its inputs are two notes. */
module DoubledTransfer {
  import opened Words
  import opened Notes
  import opened Membership
  import opened NoteCircuit
  import opened TransferCircuit
  import opened CoreState
  import opened System
  import opened LeafSafety
  import opened SmallDeployment
  import Conservation
  import Outcomes

  // ---- the circuit as it is ----------------------------------------------------------------------

  /** 200 units of asset 1. */
  function Doubled(): Created {
    Created(200, 1, 8, 9)
  }

  function DoubledCm(hs: Hashes): nat {
    NoteCm(hs, CreatedNote(Doubled()))
  }

  /** The note of 100 units is named twice, under the nullifiers of two indices. */
  function DoublingPublic(hs: Hashes, h: Hash2): TransferPublic {
    TransferPublic(HoldingRoot(hs, h), NullifierOf(hs, 0), NullifierOf(hs, 1), DoubledCm(hs), 0, 0)
  }

  function DoublingCall(hs: Hashes, h: Hash2): Call {
    Call.Transfer(Proof([], [], []), DoublingPublic(hs, h), [[1]])
  }

  lemma RealInput(hs: Hashes, h: Hash2, root: nat, nf: nat, w: Owned)
    requires Proves(hs, h, 2, root, nf, w) && w.amount != 0
    ensures SpendsInput(hs, h, 2, root, nf, w)
  {
    RealMeans(w.amount);
  }

  function Dummy(): Created {
    Created(0, 0, 0, 0)
  }

  lemma DoublingConstraints()
    ensures TransferConstraints(Witness(0), Witness(1), Doubled(), Dummy(), 0)
  {
    assert AllOf(Witness(0), Witness(1), Doubled(), Dummy(), 1);
    TransferConstraintsMean(Witness(0), Witness(1), Doubled(), Dummy());
  }

  lemma AssembleTransfer(hs: Hashes, h: Hash2, k: nat, inputs: seq<nat>, in0: Owned, in1: Owned, out0: Created,
                         out1: Created)
    requires |inputs| == 6 && inputs[5] == 0 && TransferConstraints(in0, in1, out0, out1, 0)
    requires Proves(hs, h, 2, inputs[0], inputs[1], in0) && in0.amount != 0
    requires Proves(hs, h, 2, inputs[0], inputs[2], in1) && in1.amount != 0
    requires inputs[3] == NoteCm(hs, CreatedNote(out0)) && out0.amount != 0 && inputs[4] == 0 && out1.amount == 0
    ensures Provable(hs, h, k, false, VkId.Transfer, inputs)
  {
    RealInput(hs, h, inputs[0], inputs[1], in0);
    RealInput(hs, h, inputs[0], inputs[2], in1);
    RealMeans(out0.amount);
    RealMeans(out1.amount);
    assert SatisfiesTransfer(hs, h, 2, inputs, in0, in1, out0, out1);
  }

  lemma DoublingProves(hs: Hashes, h: Hash2, k: nat)
    requires RootIsRead(hs, h)
    ensures Provable(hs, h, k, false, VkId.Transfer, Fields(hs, Conservation.TransferInputs(DoublingPublic(hs, h))))
  {
    WitnessProves(hs, h, 0);
    WitnessProves(hs, h, 1);
    DoublingConstraints();
    assert hs.read(0) == 0;
    AssembleTransfer(hs, h, k, Fields(hs, Conservation.TransferInputs(DoublingPublic(hs, h))), Witness(0), Witness(1),
                     Doubled(), Dummy());
  }

  function Run(hs: Hashes, h: Hash2): seq<Call> {
    Setup(hs) + [DoublingCall(hs, h)]
  }

  lemma VerifiedDoubling(cfg: Config, hs: Hashes, k: nat)
    requires cfg.depth == 2 && Binding(hs) && RootIsKnown(cfg, Ready(hs, k).core, HoldingRoot(hs, cfg.h))
    requires cfg.verify(VkId.Transfer, Proof([], [], []), Conservation.TransferInputs(DoublingPublic(hs, cfg.h)))
             == Ok(true)
    ensures Apply(cfg, Ready(hs, k), DoublingCall(hs, cfg.h)).Some?
    ensures Apply(cfg, Ready(hs, k), DoublingCall(hs, cfg.h)).value.core.leaves
            == [HoldingLeaf(hs), Leaf(DoubledCm(hs), [1])]
  {
    var core, pub := Ready(hs, k).core, DoublingPublic(hs, cfg.h);
    NullifiersDiffer(hs, 0, 1);
    assert Pow2(2) == 4 && DoubledCm(hs) != 0;
    assert Outcomes.OutputLeaf(DoubledCm(hs), [1]) + Outcomes.OutputLeaf(0, []) == [Leaf(DoubledCm(hs), [1])];
    Outcomes.TransferSucceedsIff(cfg, core, Proof([], [], []), pub, [[1]]);
  }

  lemma RunDoubles(hs: Hashes, h: Hash2)
    requires Binding(hs) && RootIsRead(hs, h)
    ensures At(Deployment(hs, h, 1, false), Start(1), Run(hs, h), 5) == Ready(hs, 1)
    ensures After(Deployment(hs, h, 1, false), Start(1), Run(hs, h)).core.leaves
            == [HoldingLeaf(hs), Leaf(DoubledCm(hs), [1])]
  {
    var cfg := Deployment(hs, h, 1, false);
    SetupRuns(cfg, hs, 1);
    assert Run(hs, h)[..5] == Setup(hs);
    HoldingRootIsKnown(cfg, hs, Ready(hs, 1).core);
    DoublingProves(hs, h, 1);
    VerifiedDoubling(cfg, hs, 1);
    AtStep(cfg, Start(1), Run(hs, h), 5);
  }

  /**
   * Whatever binding hashes are used, and with a verifier that accepts exactly what the circuits prove, a permitted run
   * transfers a note of 200 out of a tree that holds a single note of 100.
   */
  lemma OneNoteIsSpentTwice(hs: Hashes, h: Hash2)
    requires Binding(hs) && Reads(hs) && BindingTree(hs.read, h)
    ensures var cfg := Deployment(hs, h, 1, false);
            && BindingTrees(cfg, hs) && SoundVerifier(cfg, hs, 1, false)
            && IsInitial(Start(1)) && AllPermitted(Start(1), Run(hs, h))
    ensures At(Deployment(hs, h, 1, false), Start(1), Run(hs, h), 5).core.leaves
            == [Leaf(NoteCm(hs, NoteData(100, 1, 0, hs.h1(7))), [1])]
    ensures After(Deployment(hs, h, 1, false), Start(1), Run(hs, h)).core.leaves
            == [Leaf(NoteCm(hs, NoteData(100, 1, 0, hs.h1(7))), [1]), Leaf(NoteCm(hs, NoteData(200, 1, 8, 9)), [1])]
  {
    VerifierIsSound(hs, h, 1, false);
    DeploymentBinds(hs, h, 1, false);
    SetupIsPermitted(hs, 1);
    RunDoubles(hs, h);
  }

  // ---- with the missing constraint ---------------------------------------------------------------

  /** Soundness of a transfer circuit that also constrains the indices of its real inputs. */
  ghost predicate SoundGuardedTransfers(cfg: Config, hs: Hashes) {
    forall proof, inputs :: cfg.verify(VkId.Transfer, proof, inputs) == Ok(true) ==>
                              exists in0, in1, out0, out1 ::
                                && SatisfiesTransfer(hs, cfg.h, cfg.depth, Fields(hs, inputs), in0, in1, out0, out1)
                                && (in0.amount != 0 ==> IndexIsOfPath(in0)) && (in1.amount != 0 ==> IndexIsOfPath(in1))
  }

  lemma GuardedInputStandsOnLeaf(cfg: Config, hs: Hashes, core: Core, root: nat, nf: nat, w: Owned)
    requires BindingTrees(cfg, hs) && RootIsKnown(cfg, core, root) && hs.read(nf) != 0
    requires SpendsInput(hs, cfg.h, cfg.depth, hs.read(root), hs.read(nf), w)
    requires w.amount != 0 ==> IndexIsOfPath(w)
    ensures StandsOnSome(hs, core.leaves, nf)
  {
    SpentInputMeans(hs, cfg.h, cfg.depth, hs.read(root), hs.read(nf), w);
    GuardedProofStandsOnLeaf(cfg, hs, core, root, nf, w);
  }

  lemma GuardedTransferStands(cfg: Config, hs: Hashes, core: Core, proof: Proof, pub: TransferPublic)
    requires BindingTrees(cfg, hs) && SoundGuardedTransfers(cfg, hs) && RootIsKnown(cfg, core, pub.root)
    requires cfg.verify(VkId.Transfer, proof, Conservation.TransferInputs(pub)) == Ok(true)
    requires hs.read(pub.nfIn0) != 0 && hs.read(pub.nfIn1) != 0
    ensures StandsOnSome(hs, core.leaves, pub.nfIn0) && StandsOnSome(hs, core.leaves, pub.nfIn1)
  {
    var inputs := Fields(hs, Conservation.TransferInputs(pub));
    var w0, w1, o0, o1 :| && SatisfiesTransfer(hs, cfg.h, cfg.depth, inputs, w0, w1, o0, o1)
                          && (w0.amount != 0 ==> IndexIsOfPath(w0)) && (w1.amount != 0 ==> IndexIsOfPath(w1));
    GuardedInputStandsOnLeaf(cfg, hs, core, pub.root, pub.nfIn0, w0);
    GuardedInputStandsOnLeaf(cfg, hs, core, pub.root, pub.nfIn1, w1);
  }

  lemma SpentNullifiersDiffer(cfg: Config, s: Sys, c: Call)
    requires c.Transfer? && Apply(cfg, s, c).Some?
    ensures RootIsKnown(cfg, s.core, c.transferPub.root)
    ensures cfg.verify(VkId.Transfer, c.proof, Conservation.TransferInputs(c.transferPub)) == Ok(true)
    ensures c.transferPub.nfIn0 == c.transferPub.nfIn1 ==> c.transferPub.nfIn0 == 0
  {
    Outcomes.TransferSucceedsIff(cfg, s.core, c.proof, c.transferPub, c.cts);
  }

  /**
   * With the index constrained, the two inputs of a transfer are leaves of the tree, and they are the same leaf exactly
   * when the two nullifiers, which differ, are read alike.
   */
  lemma InputsShareALeafIff(cfg: Config, hs: Hashes, s: Sys, c: Call) returns (i: nat, j: nat)
    requires BindingTrees(cfg, hs) && SoundGuardedTransfers(cfg, hs)
    requires c.Transfer? && Apply(cfg, s, c).Some?
    requires hs.read(c.transferPub.nfIn0) != 0 && hs.read(c.transferPub.nfIn1) != 0
    ensures c.transferPub.nfIn0 != c.transferPub.nfIn1
    ensures StandsOn(hs, s.core.leaves, c.transferPub.nfIn0, i) && StandsOn(hs, s.core.leaves, c.transferPub.nfIn1, j)
    ensures i == j <==> hs.read(c.transferPub.nfIn0) == hs.read(c.transferPub.nfIn1)
  {
    var pub := c.transferPub;
    SpentNullifiersDiffer(cfg, s, c);
    assert hs.read(0) == 0;
    GuardedTransferStands(cfg, hs, s.core, c.proof, pub);
    i :| StandsOn(hs, s.core.leaves, pub.nfIn0, i);
    j :| StandsOn(hs, s.core.leaves, pub.nfIn1, j);
    OneNullifierPerLeaf(hs, s.core.leaves, i, pub.nfIn0, j, pub.nfIn1);
  }
}
