/** Which deposits a provider has checked, when the caller names the contract that answers. */
module NamedGate {
  import opened Words
  import opened BigEndian
  import opened AspGate
  import opened CoreState
  import opened Outcomes
  import Admission

  function DepositInputs(pub: DepositPublic): seq<nat> {
    [pub.cm, pub.publicAmount, pub.aspApprovedRoot, pub.aspBlockedRoot]
  }

  /** Every deposit that succeeds through the contract passes the provider's checks with the same witness. */
  ghost predicate AllDepositsPass(cfg: Config, gate: MembershipProof -> bool, h: Hash2, history: seq<Pair>) {
    forall core, w, proof, pub, ct ::
      DepositNote(cfg, core, gate(w), proof, pub, ct).Ok? ==> EntryResult(h, history, w).Ok?
  }

  /** Once some deposit can be proved, all that name a contract pass exactly when it accepts nothing that is refused. */
  lemma DepositsPassIff(cfg: Config, gate: MembershipProof -> bool, h: Hash2, history: seq<Pair>, proof: Proof,
                        pub: DepositPublic)
    requires cfg.verify(VkId.Deposit, proof, DepositInputs(pub)) == Ok(true)
    ensures AllDepositsPass(cfg, gate, h, history) <==> forall w :: gate(w) ==> EntryResult(h, history, w).Ok?
  {
    if AllDepositsPass(cfg, gate, h, history) {
      var core := Core([], {}, {}, map[]);
      forall w | gate(w)
        ensures EntryResult(h, history, w).Ok?
      {
        DepositSucceedsIff(cfg, core, gate(w), proof, pub, [1]);
        assert DepositNote(cfg, core, gate(w), proof, pub, [1]).Ok?;
      }
    }
  }

  // ---- a deposit that the provider refuses ---------------------------------------------------------

  /** Credential 1, approved by the tree of itself, between the two blocked leaves 0 and 2 of a tree of depth 1. */
  function SelfMade(h: Hash2): MembershipProof {
    MembershipProof(Word32(1), [], [], Word32(0), Word32(2), [Word32(2)], [0], [Word32(0)], [1],
                    Word32(1), Word32(h(0, 2)))
  }

  lemma SelfMadePaths(h: Hash2)
    ensures ByteFold(h, Word32(0), [Word32(2)], [0]) == Word32(h(0, 2))
    ensures ByteFold(h, Word32(2), [Word32(0)], [1]) == Word32(h(0, 2))
  {
    Word32Value(0);
    Word32Value(2);
    var left, right: seq<Bytes32> := [Word32(0)], [Word32(2)];
    var zero, one: seq<nat> := [0], [1];
    assert left[..0] == [] && right[..0] == [] && zero[..0] == [] && one[..0] == [];
  }

  lemma SelfMadeIsConsistent(h: Hash2)
    ensures CheckWitness(h, SelfMade(h)).Ok?
  {
    SelfMadePaths(h);
    Admission.LessOnWords(0, 1);
    Admission.LessOnWords(1, 2);
  }

  /**
   * Whatever roots a provider has recorded, unless they are those of this witness, it refuses the witness; and the
   * deposit succeeds through another contract of the same code that records them.
   */
  lemma RefusedWitnessDeposits(cfg: Config, core: Core, h: Hash2, history: seq<Pair>, proof: Proof, pub: DepositPublic,
                               ct: Bytes)
    requires cfg.verify(VkId.Deposit, proof, DepositInputs(pub)) == Ok(true)
    requires ct != [] && |core.leaves| < Pow2(cfg.depth)
    requires (Word32(1), Word32(h(0, 2))) !in history
    ensures EntryResult(h, history, SelfMade(h)) == Err(AspError.UnknownRoot)
    ensures var own := [(Word32(1), Word32(h(0, 2)))];
            DepositNote(cfg, core, EntryResult(h, own, SelfMade(h)).Ok?, proof, pub, ct).Ok?
  {
    SelfMadeIsConsistent(h);
    DepositSucceedsIff(cfg, core, true, proof, pub, ct);
  }
}
