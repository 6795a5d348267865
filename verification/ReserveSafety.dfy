/** The pool's committed reserves and settled orders over whole runs, given a sound verifier and binding hashes. */
module ReserveSafety {
  import opened Words
  import opened Field
  import opened Notes
  import opened CoreState
  import opened AmmState
  import opened BatchInvariant
  import opened System
  import opened ReserveRun
  import BatchCircuit
  import BatchSafety
  import NoteCircuit
  import Liquidity

  type Reserves = BatchCircuit.Reserves

  /** A true answer of the verifier means that some witness satisfies the circuit of the key. */
  ghost predicate SoundPool(cfg: Config, hs: Hashes, K: nat) {
    && (forall proof, inputs :: cfg.verify(VkId.BatchSettle, proof, inputs) == Ok(true) ==>
                                  exists w :: BatchCircuit.Satisfies(hs, K, Fields(hs, inputs), w))
    && (forall proof, inputs :: cfg.verify(VkId.AddLiquidity, proof, inputs) == Ok(true) ==>
                                  exists w, in0, in1, share ::
                                    Liquidity.SatisfiesAdd(hs, cfg.h, cfg.depth, Fields(hs, inputs), w, in0, in1,
                                                           share))
    && (forall proof, inputs :: cfg.verify(VkId.RemoveLiquidity, proof, inputs) == Ok(true) ==>
                                  exists w, share, out0, out1 ::
                                    Liquidity.SatisfiesRemove(hs, cfg.h, cfg.depth, Fields(hs, inputs), w, share,
                                                              out0, out1))
  }

  predicate Opens(hs: Hashes, amm: Amm, r: Reserves, blinding: Fe) {
    amm.reserves.Some? && hs.read(amm.reserves.value.reserveCm) == BatchCircuit.ReserveCm(hs, r, blinding)
  }

  /** The pool's current commitment is to these reserves. */
  ghost predicate Holds(hs: Hashes, amm: Amm, r: Reserves) {
    exists blinding: Fe :: Opens(hs, amm, r, blinding)
  }

  lemma HoldsOne(hs: Hashes, amm: Amm, r: Reserves, q: Reserves)
    requires Binding(hs) && Holds(hs, amm, r) && Holds(hs, amm, q)
    ensures r == q
  {
    var b: Fe :| Opens(hs, amm, r, b);
    var c: Fe :| Opens(hs, amm, q, c);
    assert hs.h4(r.a, r.b, r.shares, b) == hs.h4(q.a, q.b, q.shares, c);
  }

  // ---- one call ------------------------------------------------------------------------------

  predicate OpensOrder(hs: Hashes, amm: Amm, batch: nat, slot: nat, o: BatchCircuit.Order) {
    && (batch, slot) in amm.orders
    && BatchCircuit.OrderHash(hs, o, hs.read(amm.commPk)) == hs.read(amm.orders[(batch, slot)].encOrderHash)
  }

  /** The note that pays an order: this amount of the asset it buys, under its blinding, to its owner. */
  function PaymentTo(o: BatchCircuit.Order, amount: nat): NoteData {
    NoteData(amount, o.assetOut, o.outBlinding, o.outOwnerPk)
  }

  /**
   * The settlement of a batch: it clears the orders that were submitted in its slots, pays slot j's order the amount it
   * clears, conserves both assets, and moves the committed reserves from one commitment to the other.
   */
  ghost predicate SettlementOf(hs: Hashes, before: Amm, after: Amm, batch: nat, paid: seq<nat>,
                               w: BatchCircuit.Witness)
  {
    && BatchCircuit.Settles(w) && |w.orders| == |paid| == before.k
    && Opens(hs, before, w.pre, w.preBlinding) && Opens(hs, after, w.post, w.postBlinding)
    && forall j: nat :: j < before.k ==>
                          && OpensOrder(hs, before, batch, j, w.orders[j])
                          && hs.read(paid[j]) == NoteCm(hs, PaymentTo(w.orders[j], w.fills[j].amountOut))
  }

  lemma WitnessPays(hs: Hashes, amm: Amm, batch: nat, outputs: seq<Output>, preCm: nat, postCm: nat, v: seq<nat>,
                    w: BatchCircuit.Witness, j: nat)
    requires IsSettleVector(amm, batch, outputs, preCm, postCm, v) && j < amm.k
    requires BatchCircuit.Satisfies(hs, amm.k, Fields(hs, v), w)
    ensures OpensOrder(hs, amm, batch, j, w.orders[j])
    ensures hs.read(outputs[j].0) == NoteCm(hs, PaymentTo(w.orders[j], w.fills[j].amountOut))
  {
    assert hs.read(v[j]) == BatchCircuit.OrderHash(hs, w.orders[j], hs.read(v[2 * amm.k]));
    assert hs.read(v[amm.k + j]) == BatchCircuit.OutputCm(hs, w.orders[j], w.fills[j].amountOut);
    assert v[amm.k + j] == outputs[j].0;
  }

  lemma WitnessSettles(hs: Hashes, before: Amm, after: Amm, batch: nat, outputs: seq<Output>, preCm: nat, postCm: nat,
                       v: seq<nat>, w: BatchCircuit.Witness)
    requires IsSettleVector(before, batch, outputs, preCm, postCm, v)
    requires before.reserves.Some? && before.reserves.value.reserveCm == preCm
    requires after.reserves.Some? && after.reserves.value.reserveCm == postCm
    requires BatchCircuit.Satisfies(hs, before.k, Fields(hs, v), w) && BatchCircuit.Settles(w)
    ensures SettlementOf(hs, before, after, batch, OutputCms(outputs), w)
  {
    forall j: nat | j < before.k
      ensures OpensOrder(hs, before, batch, j, w.orders[j])
      ensures hs.read(OutputCms(outputs)[j]) == NoteCm(hs, PaymentTo(w.orders[j], w.fills[j].amountOut))
    {
      WitnessPays(hs, before, batch, outputs, preCm, postCm, v, w, j);
    }
  }

  lemma VerifiedWitness(cfg: Config, hs: Hashes, K: nat, proof: Proof, inputs: seq<nat>)
    returns (w: BatchCircuit.Witness)
    requires SoundPool(cfg, hs, K) && K < TWO_32 && cfg.verify(VkId.BatchSettle, proof, inputs) == Ok(true)
    ensures BatchCircuit.Satisfies(hs, K, Fields(hs, inputs), w) && BatchCircuit.Settles(w)
  {
    w :| BatchCircuit.Satisfies(hs, K, Fields(hs, inputs), w);
    BatchCircuit.ConstraintsMeanSettles(w);
  }

  /** A settlement that succeeds has an accepted proof for the vector of its batch. */
  lemma SettleVerified(cfg: Config, s: Sys, c: Call) returns (v: seq<nat>)
    requires c.Settle? && Apply(cfg, s, c).Some?
    ensures s.amm.reserves.Some? && Apply(cfg, s, c).value.amm.reserves == Some(EncReserves(c.postCm, c.postEnc))
    ensures IsSettleVector(s.amm, c.batch, c.outputs, s.amm.reserves.value.reserveCm, c.postCm, v)
    ensures cfg.verify(VkId.BatchSettle, c.proof, v) == Ok(true)
  {
    SettleEffect(cfg, World(s.core, s.amm), c.batch, c.proof, c.outputs, c.postCm, c.postEnc);
    var preCm := s.amm.reserves.value.reserveCm;
    v := SettleInputs(s.amm, c.batch, c.outputs, preCm, c.postCm);
    SettleInputsAre(s.amm, c.batch, c.outputs, preCm, c.postCm, v);
  }

  lemma SettleWitness(cfg: Config, hs: Hashes, s: Sys, c: Call) returns (w: BatchCircuit.Witness)
    requires SoundPool(cfg, hs, s.amm.k) && s.amm.k < TWO_32
    requires c.Settle? && Apply(cfg, s, c).Some?
    ensures SettlementOf(hs, s.amm, Apply(cfg, s, c).value.amm, c.batch, OutputCms(c.outputs), w)
  {
    var v := SettleVerified(cfg, s, c);
    w := VerifiedWitness(cfg, hs, s.amm.k, c.proof, v);
    WitnessSettles(hs, s.amm, Apply(cfg, s, c).value.amm, c.batch, c.outputs, s.amm.reserves.value.reserveCm, c.postCm,
                   v, w);
  }

  lemma SettleMoves(cfg: Config, hs: Hashes, s: Sys, c: Call) returns (post: Reserves)
    requires SoundPool(cfg, hs, s.amm.k) && s.amm.k < TWO_32
    requires c.Settle? && Apply(cfg, s, c).Some?
    ensures Holds(hs, Apply(cfg, s, c).value.amm, post)
    ensures exists pre :: Holds(hs, s.amm, pre) && SettleStep(pre, post)
  {
    var w := SettleWitness(cfg, hs, s, c);
    post := w.post;
    assert Holds(hs, s.amm, w.pre) && SettleStep(w.pre, w.post);
  }

  lemma AddVerified(cfg: Config, s: Sys, c: Call)
    requires c.AddLp? && Apply(cfg, s, c).Some?
    ensures s.amm.reserves.Some? && Apply(cfg, s, c).value.amm.reserves == Some(EncReserves(c.postCm, c.postEnc))
    ensures cfg.verify(VkId.AddLiquidity, c.proof,
                       [c.root, c.nfIn0, c.nfIn1, c.lpCommit, s.amm.reserves.value.reserveCm, c.postCm]) == Ok(true)
  {}

  /**
   * The deposit of a call: two notes of the tree pay in, the reserves move by a deposit of their amounts, and the share
   * commitment is to the shares minted.
   */
  predicate DepositOf(cfg: Config, hs: Hashes, before: Amm, after: Amm, c: Call, w: Liquidity.Witness,
                      in0: NoteCircuit.Owned, in1: NoteCircuit.Owned, share: Liquidity.NewNote)
    requires c.AddLp?
  {
    && Opens(hs, before, w.pre, w.preBlinding) && Opens(hs, after, w.post, w.postBlinding)
    && Liquidity.Adds(w.pre, w.post, in0.amount, in1.amount, w.shares)
    && NoteCircuit.Proves(hs, cfg.h, cfg.depth, hs.read(c.root), hs.read(c.nfIn0), in0)
    && NoteCircuit.Proves(hs, cfg.h, cfg.depth, hs.read(c.root), hs.read(c.nfIn1), in1)
    && hs.read(c.lpCommit) == NoteCm(hs, NoteData(w.shares, share.asset, share.blinding, share.ownerPk))
  }

  lemma AddWitness(cfg: Config, hs: Hashes, s: Sys, c: Call)
    returns (w: Liquidity.Witness, in0: NoteCircuit.Owned, in1: NoteCircuit.Owned, share: Liquidity.NewNote)
    requires SoundPool(cfg, hs, s.amm.k)
    requires c.AddLp? && Apply(cfg, s, c).Some?
    ensures DepositOf(cfg, hs, s.amm, Apply(cfg, s, c).value.amm, c, w, in0, in1, share)
  {
    AddVerified(cfg, s, c);
    var inputs := [c.root, c.nfIn0, c.nfIn1, c.lpCommit, s.amm.reserves.value.reserveCm, c.postCm];
    w, in0, in1, share :| Liquidity.SatisfiesAdd(hs, cfg.h, cfg.depth, Fields(hs, inputs), w, in0, in1, share);
    Liquidity.AddConstraintsMean(w);
  }

  lemma AddMoves(cfg: Config, hs: Hashes, s: Sys, c: Call) returns (post: Reserves)
    requires SoundPool(cfg, hs, s.amm.k)
    requires c.AddLp? && Apply(cfg, s, c).Some?
    ensures Holds(hs, Apply(cfg, s, c).value.amm, post)
    ensures exists pre :: Holds(hs, s.amm, pre) && AddStep(pre, post)
  {
    var w, in0, in1, share := AddWitness(cfg, hs, s, c);
    post := w.post;
    assert Opens(hs, Apply(cfg, s, c).value.amm, w.post, w.postBlinding);
    assert Liquidity.Adds(w.pre, w.post, in0.amount, in1.amount, w.shares);
    assert Holds(hs, s.amm, w.pre) && AddStep(w.pre, w.post);
  }

  lemma RemoveVerified(cfg: Config, s: Sys, c: Call)
    requires c.RemoveLp? && Apply(cfg, s, c).Some?
    ensures s.amm.reserves.Some? && Apply(cfg, s, c).value.amm.reserves == Some(EncReserves(c.postCm, c.postEnc))
    ensures cfg.verify(VkId.RemoveLiquidity, c.proof,
                       [c.root, c.lpNf, c.cmOut0, c.cmOut1, s.amm.reserves.value.reserveCm, c.postCm]) == Ok(true)
  {}

  /**
   * The withdrawal of a call: a note of the tree is burned, the reserves move by a withdrawal of its amount as shares,
   * and the two commitments are to the amounts paid out.
   */
  predicate WithdrawalOf(cfg: Config, hs: Hashes, before: Amm, after: Amm, c: Call, w: Liquidity.Witness,
                         share: NoteCircuit.Owned, out0: Liquidity.NewNote, out1: Liquidity.NewNote)
    requires c.RemoveLp?
  {
    && Opens(hs, before, w.pre, w.preBlinding) && Opens(hs, after, w.post, w.postBlinding)
    && Liquidity.Removes(w.pre, w.post, w.amount0, w.amount1, share.amount)
    && NoteCircuit.Proves(hs, cfg.h, cfg.depth, hs.read(c.root), hs.read(c.lpNf), share)
    && hs.read(c.cmOut0) == NoteCm(hs, NoteData(w.amount0, out0.asset, out0.blinding, out0.ownerPk))
    && hs.read(c.cmOut1) == NoteCm(hs, NoteData(w.amount1, out1.asset, out1.blinding, out1.ownerPk))
  }

  lemma RemoveWitness(cfg: Config, hs: Hashes, s: Sys, c: Call)
    returns (w: Liquidity.Witness, share: NoteCircuit.Owned, out0: Liquidity.NewNote, out1: Liquidity.NewNote)
    requires SoundPool(cfg, hs, s.amm.k)
    requires c.RemoveLp? && Apply(cfg, s, c).Some?
    ensures WithdrawalOf(cfg, hs, s.amm, Apply(cfg, s, c).value.amm, c, w, share, out0, out1)
  {
    RemoveVerified(cfg, s, c);
    var inputs := [c.root, c.lpNf, c.cmOut0, c.cmOut1, s.amm.reserves.value.reserveCm, c.postCm];
    w, share, out0, out1 :| Liquidity.SatisfiesRemove(hs, cfg.h, cfg.depth, Fields(hs, inputs), w, share, out0, out1);
    Liquidity.RemoveConstraintsMean(w);
  }

  lemma RemoveMoves(cfg: Config, hs: Hashes, s: Sys, c: Call) returns (post: Reserves)
    requires SoundPool(cfg, hs, s.amm.k)
    requires c.RemoveLp? && Apply(cfg, s, c).Some?
    ensures Holds(hs, Apply(cfg, s, c).value.amm, post)
    ensures exists pre :: Holds(hs, s.amm, pre) && RemoveStep(pre, post)
  {
    var w, share, out0, out1 := RemoveWitness(cfg, hs, s, c);
    post := w.post;
    assert Opens(hs, Apply(cfg, s, c).value.amm, w.post, w.postBlinding);
    assert Liquidity.Removes(w.pre, w.post, w.amount0, w.amount1, share.amount);
    assert Holds(hs, s.amm, w.pre) && RemoveStep(w.pre, w.post);
  }

  lemma OthersKeepReserves(cfg: Config, s: Sys, c: Call)
    requires s.amm.reserves.Some? && !c.Settle? && !c.AddLp? && !c.RemoveLp?
    ensures Next(cfg, s, c).amm.reserves == s.amm.reserves
  {
    if Apply(cfg, s, c).Some? && !IsPoolCall(c) && !IsLendCall(c) {
      CoreCallGrows(cfg, s, c);
    }
  }

  /** A call either leaves the committed reserves or moves them by a settlement, a deposit or a withdrawal. */
  lemma ReservesStep(cfg: Config, hs: Hashes, s: Sys, c: Call, pre: Reserves) returns (post: Reserves)
    requires SoundPool(cfg, hs, s.amm.k) && Binding(hs) && s.amm.k < TWO_32 && Holds(hs, s.amm, pre)
    ensures Holds(hs, Next(cfg, s, c).amm, post) && Step(pre, post)
  {
    if Apply(cfg, s, c).Some? && c.Settle? {
      post := SettleMoves(cfg, hs, s, c);
      var q :| Holds(hs, s.amm, q) && SettleStep(q, post);
      HoldsOne(hs, s.amm, pre, q);
    } else if Apply(cfg, s, c).Some? && c.AddLp? {
      post := AddMoves(cfg, hs, s, c);
      var q :| Holds(hs, s.amm, q) && AddStep(q, post);
      HoldsOne(hs, s.amm, pre, q);
    } else if Apply(cfg, s, c).Some? && c.RemoveLp? {
      post := RemoveMoves(cfg, hs, s, c);
      var q :| Holds(hs, s.amm, q) && RemoveStep(q, post);
      HoldsOne(hs, s.amm, pre, q);
    } else {
      if Apply(cfg, s, c).Some? {
        OthersKeepReserves(cfg, s, c);
      }
      post := pre;
      var b: Fe :| Opens(hs, s.amm, pre, b);
      assert Opens(hs, Next(cfg, s, c).amm, post, b);
      assert SettleStep(pre, post);
    }
  }

  lemma SizeIsFixed(cfg: Config, s: Sys, c: Call)
    ensures Next(cfg, s, c).amm.k == s.amm.k
  {
    if Apply(cfg, s, c).Some? && !IsPoolCall(c) && !IsLendCall(c) {
      CoreCallGrows(cfg, s, c);
    }
  }

  // ---- runs --------------------------------------------------------------------------------------

  /** The commitment before each of the first n calls, and after them, is to the reserves listed, which form a run. */
  ghost predicate HeldUpTo(cfg: Config, hs: Hashes, s: Sys, calls: seq<Call>, n: nat, run: seq<Reserves>)
    requires n <= |calls|
  {
    && |run| == n + 1 && IsRun(run)
    && forall i :: 0 <= i <= n ==> Holds(hs, At(cfg, s, calls, i).amm, run[i])
  }

  lemma {:induction false} SizeStays(cfg: Config, s: Sys, calls: seq<Call>, n: nat)
    requires n <= |calls|
    ensures At(cfg, s, calls, n).amm.k == s.amm.k
  {
    if n > 0 {
      SizeStays(cfg, s, calls, n - 1);
      AtStep(cfg, s, calls, n - 1);
      SizeIsFixed(cfg, At(cfg, s, calls, n - 1), calls[n - 1]);
    }
  }

  lemma NextReserves(cfg: Config, hs: Hashes, s: Sys, calls: seq<Call>, n: nat, pre: Reserves)
    returns (post: Reserves)
    requires SoundPool(cfg, hs, s.amm.k) && Binding(hs) && s.amm.k < TWO_32
    requires n < |calls| && Holds(hs, At(cfg, s, calls, n).amm, pre)
    ensures Holds(hs, At(cfg, s, calls, n + 1).amm, post) && Step(pre, post)
  {
    SizeStays(cfg, s, calls, n);
    post := ReservesStep(cfg, hs, At(cfg, s, calls, n), calls[n], pre);
    AtStep(cfg, s, calls, n);
  }

  lemma RunExtends(run: seq<Reserves>, post: Reserves)
    requires IsRun(run) && Step(run[|run| - 1], post)
    ensures IsRun(run + [post])
  {
    var more := run + [post];
    forall i | 0 <= i < |more| - 1
      ensures Step(more[i], more[i + 1])
    {
      if i < |run| - 1 {
        assert Step(run[i], run[i + 1]);
      }
    }
  }

  lemma HeldExtends(cfg: Config, hs: Hashes, s: Sys, calls: seq<Call>, n: nat, run: seq<Reserves>, post: Reserves)
    requires n < |calls| && HeldUpTo(cfg, hs, s, calls, n, run)
    requires Holds(hs, At(cfg, s, calls, n + 1).amm, post) && Step(run[n], post)
    ensures HeldUpTo(cfg, hs, s, calls, n + 1, run + [post])
  {
    RunExtends(run, post);
  }

  /** The commitments of a run are to the reserves of one run of steps. */
  lemma {:induction false} CommitmentsFollowARun(cfg: Config, hs: Hashes, s: Sys, calls: seq<Call>, n: nat,
                                                 start: Reserves)
    returns (run: seq<Reserves>)
    requires SoundPool(cfg, hs, s.amm.k) && Binding(hs) && s.amm.k < TWO_32 && Holds(hs, s.amm, start)
    requires n <= |calls|
    ensures HeldUpTo(cfg, hs, s, calls, n, run) && run[0] == start
  {
    if n == 0 {
      run := [start];
    } else {
      var init := CommitmentsFollowARun(cfg, hs, s, calls, n - 1, start);
      assert Holds(hs, At(cfg, s, calls, n - 1).amm, init[n - 1]);
      var post := NextReserves(cfg, hs, s, calls, n - 1, init[n - 1]);
      HeldExtends(cfg, hs, s, calls, n - 1, init, post);
      run := init + [post];
    }
  }

  /**
   * In a run of any calls that starts with committed reserves, a*b/shares^2 of the committed reserves never falls
   * while every commitment in between is to a positive number of shares.
   */
  lemma ValuePerShareNeverFalls(cfg: Config, hs: Hashes, s: Sys, calls: seq<Call>, start: Reserves, i: nat, j: nat,
                                x: Reserves, y: Reserves)
    requires SoundPool(cfg, hs, s.amm.k) && Binding(hs) && s.amm.k < TWO_32 && Holds(hs, s.amm, start)
    requires i <= j <= |calls| && Holds(hs, At(cfg, s, calls, i).amm, x) && Holds(hs, At(cfg, s, calls, j).amm, y)
    requires forall k, r :: i <= k <= j && Holds(hs, At(cfg, s, calls, k).amm, r) ==> r.shares > 0
    ensures NoLessPerShare(x, y)
  {
    var run := CommitmentsFollowARun(cfg, hs, s, calls, |calls|, start);
    HoldsOne(hs, At(cfg, s, calls, i).amm, x, run[i]);
    HoldsOne(hs, At(cfg, s, calls, j).amm, y, run[j]);
    NeverDecreases(run, i, j);
  }

  /** A withdrawal after which no shares are left leaves both reserves at exactly 0. */
  lemma LastWithdrawalEmptiesThePool(cfg: Config, hs: Hashes, s: Sys, c: Call, post: Reserves)
    requires SoundPool(cfg, hs, s.amm.k) && Binding(hs) && c.RemoveLp? && Apply(cfg, s, c).Some?
    requires Holds(hs, Apply(cfg, s, c).value.amm, post) && post.shares == 0
    ensures post.a == 0 && post.b == 0
  {
    var q := RemoveMoves(cfg, hs, s, c);
    HoldsOne(hs, Apply(cfg, s, c).value.amm, post, q);
    var pre :| Holds(hs, s.amm, pre) && RemoveStep(pre, q);
    BurningAllEmpties(pre, q);
  }

  // ---- no proof serves two settlements ---------------------------------------------------------------

  lemma SettledVector(cfg: Config, s: Sys, calls: seq<Call>, i: nat) returns (v: seq<nat>)
    requires i < |calls| && calls[i].Settle? && Succeeds(cfg, s, calls, i)
    ensures cfg.verify(VkId.BatchSettle, calls[i].proof, v) == Ok(true)
    ensures |v| == 2 * s.amm.k + 4 && v[2 * s.amm.k + 1] == calls[i].batch
  {
    v := SettleVerified(cfg, At(cfg, s, calls, i), calls[i]);
    SizeStays(cfg, s, calls, i);
  }

  /** Two settlements that succeed in a run were verified for public inputs that name different batches. */
  lemma SettlementsShareNoInputs(cfg: Config, s: Sys, calls: seq<Call>, i: nat, j: nat)
    returns (v: seq<nat>, u: seq<nat>)
    requires IsInitial(s) && i < j < |calls| && calls[i].Settle? && calls[j].Settle?
    requires Succeeds(cfg, s, calls, i) && Succeeds(cfg, s, calls, j)
    ensures cfg.verify(VkId.BatchSettle, calls[i].proof, v) == Ok(true)
    ensures cfg.verify(VkId.BatchSettle, calls[j].proof, u) == Ok(true)
    ensures |v| == |u| == 2 * s.amm.k + 4
    ensures v[2 * s.amm.k + 1] == calls[i].batch != calls[j].batch == u[2 * s.amm.k + 1]
  {
    v := SettledVector(cfg, s, calls, i);
    u := SettledVector(cfg, s, calls, j);
    BatchSafety.NoSecondSettle(cfg, s, calls, i, j, calls[i].batch);
  }

  /** So the circuit reads different inputs, whatever else the two settlements have in common. */
  lemma NoProofServesTwice(hs: Hashes, v: seq<nat>, u: seq<nat>, i: nat)
    requires Reads(hs) && i < |v| == |u| && v[i] < P && u[i] < P && v[i] != u[i]
    ensures Fields(hs, v) != Fields(hs, u)
  {
    assert Fields(hs, v)[i] == v[i] && Fields(hs, u)[i] == u[i];
  }

  // ---- what a settlement pays --------------------------------------------------------------------------

  lemma OrderIsUnique(hs: Hashes, amm: Amm, batch: nat, slot: nat, o: BatchCircuit.Order, p: BatchCircuit.Order)
    requires Binding(hs) && OpensOrder(hs, amm, batch, slot, o) && OpensOrder(hs, amm, batch, slot, p)
    ensures o == p
  {
    var f, pk := hs.h7, hs.read(amm.commPk);
    assert f(o.amountIn, o.assetOut, o.minOut, o.outBlinding, o.outOwnerPk, pk, o.rEnc)
           == f(p.amountIn, p.assetOut, p.minOut, p.outBlinding, p.outOwnerPk, pk, p.rEnc);
  }

  lemma CmsOfOutputs(leaves: seq<Leaf>, outputs: seq<Output>)
    ensures Cms(leaves + OutputLeaves(outputs)) == Cms(leaves) + OutputCms(outputs)
  {}

  lemma SettleAppends(cfg: Config, s: Sys, c: Call)
    requires c.Settle? && Apply(cfg, s, c).Some?
    ensures Cms(Apply(cfg, s, c).value.core.leaves) == Cms(s.core.leaves) + OutputCms(c.outputs)
  {
    SettleEffect(cfg, World(s.core, s.amm), c.batch, c.proof, c.outputs, c.postCm, c.postEnc);
    InsertAllSucceedsIff(cfg, s.core, s.amm.addr, c.outputs);
    CmsOfOutputs(s.core.leaves, c.outputs);
  }

  /**
   * The leaves a settlement appends are the payments of the settlement of exactly the orders submitted in its batch.
   */
  lemma SettlementPaysTheOrders(cfg: Config, hs: Hashes, s: Sys, c: Call)
    returns (w: BatchCircuit.Witness, paid: seq<nat>)
    requires SoundPool(cfg, hs, s.amm.k) && Binding(hs) && s.amm.k < TWO_32
    requires c.Settle? && Apply(cfg, s, c).Some?
    ensures Cms(Apply(cfg, s, c).value.core.leaves) == Cms(s.core.leaves) + paid
    ensures SettlementOf(hs, s.amm, Apply(cfg, s, c).value.amm, c.batch, paid, w)
    ensures forall j: nat, o :: j < s.amm.k && OpensOrder(hs, s.amm, c.batch, j, o) ==> o == w.orders[j]
  {
    SettleAppends(cfg, s, c);
    paid := OutputCms(c.outputs);
    w := SettleWitness(cfg, hs, s, c);
    OrdersAreUnique(hs, s.amm, Apply(cfg, s, c).value.amm, c.batch, paid, w);
  }

  lemma OrdersAreUnique(hs: Hashes, before: Amm, after: Amm, batch: nat, paid: seq<nat>, w: BatchCircuit.Witness)
    requires Binding(hs) && SettlementOf(hs, before, after, batch, paid, w)
    ensures forall j: nat, o :: j < before.k && OpensOrder(hs, before, batch, j, o) ==> o == w.orders[j]
  {
    forall j: nat, o | j < before.k && OpensOrder(hs, before, batch, j, o)
      ensures o == w.orders[j]
    {
      OrderIsUnique(hs, before, batch, j, o, w.orders[j]);
    }
  }

  // ---- share notes ----------------------------------------------------------------------------------------

  predicate AddsAt(cfg: Config, s: Sys, calls: seq<Call>, i: nat, lpCommit: nat) {
    i < |calls| && calls[i].AddLp? && calls[i].lpCommit == lpCommit && Succeeds(cfg, s, calls, i)
  }

  lemma ShareNotesGrow(cfg: Config, s: Sys, c: Call)
    ensures Next(cfg, s, c).amm.lps == s.amm.lps + if c.AddLp? && Apply(cfg, s, c).Some? then {c.lpCommit} else {}
  {
    if Apply(cfg, s, c).Some? && !IsPoolCall(c) && !IsLendCall(c) {
      CoreCallGrows(cfg, s, c);
    }
  }

  /** A recorded share commitment was minted by an earlier deposit that succeeded. */
  lemma {:induction false} ShareNoteWasMinted(cfg: Config, s: Sys, calls: seq<Call>, n: nat, lpCommit: nat)
    returns (i: nat)
    requires IsInitial(s) && n <= |calls| && lpCommit in At(cfg, s, calls, n).amm.lps
    ensures i < n && AddsAt(cfg, s, calls, i, lpCommit)
    decreases n
  {
    AtStep(cfg, s, calls, n - 1);
    ShareNotesGrow(cfg, At(cfg, s, calls, n - 1), calls[n - 1]);
    if lpCommit in At(cfg, s, calls, n - 1).amm.lps {
      i := ShareNoteWasMinted(cfg, s, calls, n - 1, lpCommit);
    } else {
      i := n - 1;
    }
  }

  lemma {:induction false} ShareNotesStay(cfg: Config, s: Sys, calls: seq<Call>, i: nat, j: nat)
    requires i <= j <= |calls|
    ensures At(cfg, s, calls, i).amm.lps <= At(cfg, s, calls, j).amm.lps
    decreases j
  {
    if i < j {
      ShareNotesStay(cfg, s, calls, i, j - 1);
      AtStep(cfg, s, calls, j - 1);
      ShareNotesGrow(cfg, At(cfg, s, calls, j - 1), calls[j - 1]);
    }
  }

  lemma MintRecords(cfg: Config, s: Sys, calls: seq<Call>, i: nat, lpCommit: nat)
    requires AddsAt(cfg, s, calls, i, lpCommit)
    ensures lpCommit in At(cfg, s, calls, i + 1).amm.lps
  {
    AtStep(cfg, s, calls, i);
    ShareNotesGrow(cfg, At(cfg, s, calls, i), calls[i]);
  }

  /** A minted one stays recorded, whatever is withdrawn. */
  lemma MintedShareStays(cfg: Config, s: Sys, calls: seq<Call>, i: nat, n: nat, lpCommit: nat)
    requires i < n <= |calls| && AddsAt(cfg, s, calls, i, lpCommit)
    ensures lpCommit in At(cfg, s, calls, n).amm.lps
  {
    MintRecords(cfg, s, calls, i, lpCommit);
    ShareNotesStay(cfg, s, calls, i + 1, n);
  }

  /**
   * Which recorded commitment a withdrawal names makes no difference: with any other the same call has the same result,
   * and none is used up. So the commitment is tied neither to the proof nor to the shares that are burned.
   */
  lemma WithdrawalIgnoresTheNamedShare(cfg: Config, s: Sys, c: Call, other: nat)
    requires c.RemoveLp? && c.lpCommit in s.amm.lps && other in s.amm.lps
    ensures Apply(cfg, s, c) == Apply(cfg, s, c.(lpCommit := other))
    ensures Next(cfg, s, c).amm.lps == s.amm.lps
  {
    ShareNotesGrow(cfg, s, c);
  }
}
