/** The batch-auction pool's entry points as functions of the pool's and the core's state. */
module AmmState {
  import opened Words
  import opened CoreState

  datatype AmmError =
    BadProof | UnknownRoot | BatchFull | AlreadySettled | NotExpired | UnknownOrder | AlreadyRefunded | CoreCallFailed
    | MissingAuditorCt | WrongOutputCount | BatchNotFull | ReserveMismatch | UnknownLp
    | Trap  // the host aborts: an overflow, a missing entry or an explicit panic

  const BATCH_TIMEOUT_LEDGERS: nat := 100

  datatype OrderRecord = OrderRecord(encOrder: Bytes, nfIn: nat, encOrderHash: nat, submitter: Address)

  datatype EncReserves = EncReserves(reserveCm: nat, encData: Bytes)

  type Output = (nat, Bytes)

  datatype Amm = Amm(addr: Address, commPk: nat, k: nat,
                     batchSeq: nat,
                     orders: map<(nat, nat), OrderRecord>,
                     counts: map<nat, nat>,
                     settled: set<nat>,
                     deadlines: map<nat, nat>,
                     refunded: set<(nat, nat)>,
                     reserves: Option<EncReserves>,
                     lps: set<nat>)

  datatype World = World(core: Core, amm: Amm)

  function OrderCount(amm: Amm, batch: nat): nat {
    if batch in amm.counts then amm.counts[batch] else 0
  }

  function Deadline(amm: Amm, batch: nat): nat {
    if batch in amm.deadlines then amm.deadlines[batch] else 0
  }

  // ---- calls into the core ----------------------------------------------------------------

  /** A failed sub-call surfaces as one error. */
  function CoreCall<T>(r: Result<T, VeilError>): Result<T, AmmError> {
    match r
    case Ok(x) => Ok(x)
    case Err(_) => Err(CoreCallFailed)
  }

  /** A rejected proof and a failing verifier are the same error. */
  function Verify(cfg: Config, vk: VkId, proof: Proof, inputs: seq<nat>): Result<(), AmmError> {
    if cfg.verify(vk, proof, inputs) == Ok(true) then Ok(()) else Err(AmmError.BadProof)
  }

  function PoolSpendIfSet(core: Core, caller: Address, nf: nat): Result<(Core, ()), AmmError> {
    if nf == 0 then Ok((core, ())) else CoreCall(Spend(core, caller, nf))
  }

  function PoolInsertIfSet(cfg: Config, core: Core, caller: Address, cm: nat, ct: Bytes): Result<(Core, ()), AmmError> {
    if cm == 0 then Ok((core, ()))
    else
      var (c, _) :- CoreCall(InsertCommitment(cfg, core, caller, cm, ct));
      Ok((c, ()))
  }

  function InsertAll(cfg: Config, core: Core, caller: Address, outputs: seq<Output>): Result<(Core, ()), AmmError> {
    if outputs == [] then Ok((core, ()))
    else
      var n := |outputs| - 1;
      var (c, _) :- InsertAll(cfg, core, caller, outputs[..n]);
      var (c', _) :- CoreCall(InsertCommitment(cfg, c, caller, outputs[n].0, outputs[n].1));
      Ok((c', ()))
  }

  function OutputLeaves(outputs: seq<Output>): (leaves: seq<Leaf>)
    ensures |leaves| == |outputs|
    ensures forall i :: 0 <= i < |leaves| ==> leaves[i].cm == outputs[i].0 && leaves[i].ct == outputs[i].1
  {
    seq(|outputs|, i requires 0 <= i < |outputs| => Leaf(outputs[i].0, outputs[i].1))
  }

  predicate HaveOutputCts(outputs: seq<Output>) {
    forall i :: 0 <= i < |outputs| ==> outputs[i].1 != []
  }

  /** Inserting K outputs one by one succeeds exactly when all can be inserted, and appends them in order. */
  lemma {:induction false} InsertAllSucceedsIff(cfg: Config, core: Core, caller: Address, outputs: seq<Output>)
    ensures InsertAll(cfg, core, caller, outputs).Ok?
            <==> outputs == [] || (HasPerm(core, caller, PERM_INSERT) && HaveOutputCts(outputs)
                                   && |core.leaves| + |outputs| <= Pow2(cfg.depth))
    ensures InsertAll(cfg, core, caller, outputs).Ok?
            ==> InsertAll(cfg, core, caller, outputs).value.0 == core.(leaves := core.leaves + OutputLeaves(outputs))
    ensures InsertAll(cfg, core, caller, outputs).Err? ==> InsertAll(cfg, core, caller, outputs) == Err(CoreCallFailed)
  {
    if outputs == [] {
      assert core.leaves + [] == core.leaves;
    } else {
      var n := |outputs| - 1;
      var init := outputs[..n];
      InsertAllSucceedsIff(cfg, core, caller, init);
      assert HaveOutputCts(outputs) <==> HaveOutputCts(init) && outputs[n].1 != [];
      if InsertAll(cfg, core, caller, init).Ok? {
        assert core.leaves + OutputLeaves(outputs)
               == core.leaves + OutputLeaves(init) + [Leaf(outputs[n].0, outputs[n].1)];
      }
    }
  }

  // ---- entry points ---------------------------------------------------------------------------

  /** The order takes the next slot of the current batch; the batch's first order fixes its deadline. */
  function TakeSlot(amm: Amm, ledger: nat, rec: OrderRecord): Result<(Amm, nat), AmmError> {
    var batch := amm.batchSeq;
    var slot := OrderCount(amm, batch);
    if slot >= amm.k then Err(BatchFull)
    else if slot == 0 && ledger + BATCH_TIMEOUT_LEDGERS >= TWO_32 then Err(Trap)
    else
      var deadlines := if slot == 0 then amm.deadlines[batch := ledger + BATCH_TIMEOUT_LEDGERS] else amm.deadlines;
      Ok((amm.(deadlines := deadlines, orders := amm.orders[(batch, slot) := rec],
               counts := amm.counts[batch := slot + 1]), slot))
  }

  function SubmitOrder(cfg: Config, w: World, ledger: nat, submitter: Address, proof: Proof, encOrder: Bytes,
                       nfIn: nat, encOrderHash: nat, root: nat): Result<(World, nat), AmmError>
  {
    if !RootIsKnown(cfg, w.core, root) then Err(AmmError.UnknownRoot)
    else
      var _ :- Verify(cfg, Swap, proof, [root, nfIn, encOrderHash, w.amm.commPk]);
      var (c, _) :- CoreCall(Spend(w.core, w.amm.addr, nfIn));
      var (a, slot) :- TakeSlot(w.amm, ledger, OrderRecord(encOrder, nfIn, encOrderHash, submitter));
      Ok((World(c, a), slot))
  }

  predicate BatchStored(amm: Amm, batch: nat) {
    forall s: nat :: s < amm.k ==> (batch, s) in amm.orders
  }

  function BatchHashes(amm: Amm, batch: nat): seq<nat>
    requires BatchStored(amm, batch)
  {
    seq(amm.k, s requires 0 <= s < amm.k => amm.orders[(batch, s)].encOrderHash)
  }

  function OutputCms(outputs: seq<Output>): seq<nat> {
    seq(|outputs|, i requires 0 <= i < |outputs| => outputs[i].0)
  }

  /** enc_order_hash[0..K], cm_out[0..K], committee_pk, batch_id, pre_reserve_cm, post_reserve_cm */
  function SettleInputs(amm: Amm, batch: nat, outputs: seq<Output>, preCm: nat, postCm: nat): seq<nat>
    requires BatchStored(amm, batch)
  {
    BatchHashes(amm, batch) + OutputCms(outputs) + [amm.commPk, batch, preCm, postCm]
  }

  /**
   * The public inputs of a settlement, entry by entry: the K order hashes of this batch, the K output commitments, the
   * committee's key, the batch's number, and the commitments to the reserves before and after.
   */
  predicate IsSettleVector(amm: Amm, batch: nat, outputs: seq<Output>, preCm: nat, postCm: nat, v: seq<nat>) {
    && |outputs| == amm.k && |v| == 2 * amm.k + 4
    && (forall j: nat :: j < amm.k ==> (batch, j) in amm.orders && v[j] == amm.orders[(batch, j)].encOrderHash)
    && (forall j: nat :: j < amm.k ==> v[amm.k + j] == outputs[j].0)
    && v[2 * amm.k] == amm.commPk && v[2 * amm.k + 1] == batch
    && v[2 * amm.k + 2] == preCm && v[2 * amm.k + 3] == postCm
  }

  /** There is one such vector for a stored batch, and none for any other. */
  lemma SettleInputsAre(amm: Amm, batch: nat, outputs: seq<Output>, preCm: nat, postCm: nat, v: seq<nat>)
    requires |outputs| == amm.k
    ensures IsSettleVector(amm, batch, outputs, preCm, postCm, v)
            <==> BatchStored(amm, batch) && v == SettleInputs(amm, batch, outputs, preCm, postCm)
  {
    if BatchStored(amm, batch) {
      var u := SettleInputs(amm, batch, outputs, preCm, postCm);
      assert forall j: nat :: j < amm.k ==> u[j] == amm.orders[(batch, j)].encOrderHash;
      assert forall j: nat :: j < amm.k ==> u[amm.k + j] == outputs[j].0;
      if IsSettleVector(amm, batch, outputs, preCm, postCm, v) {
        SameSettleVector(amm, batch, outputs, preCm, postCm, v, u);
      }
    }
  }

  lemma SameSettleVector(amm: Amm, batch: nat, outputs: seq<Output>, preCm: nat, postCm: nat, v: seq<nat>, u: seq<nat>)
    requires IsSettleVector(amm, batch, outputs, preCm, postCm, v)
    requires IsSettleVector(amm, batch, outputs, preCm, postCm, u)
    ensures v == u
  {
    forall i | 0 <= i < |v|
      ensures v[i] == u[i]
    {
      if i < amm.k {
      } else if i < 2 * amm.k {
        var j: nat := i - amm.k;
        assert v[amm.k + j] == outputs[j].0;
      }
    }
  }

  /** Everything a settlement is refused for before it changes anything, in the order of the checks. */
  function CheckSettle(cfg: Config, w: World, batch: nat, proof: Proof, outputs: seq<Output>, postReserveCm: nat)
    : Result<(), AmmError>
  {
    if batch in w.amm.settled then Err(AlreadySettled)
    else if batch != w.amm.batchSeq then Err(UnknownOrder)
    else if OrderCount(w.amm, batch) < w.amm.k then Err(BatchNotFull)
    else if |outputs| != w.amm.k then Err(WrongOutputCount)
    else if w.amm.reserves.None? then Err(ReserveMismatch)
    else if !BatchStored(w.amm, batch) then Err(Trap)
    else if !HaveOutputCts(outputs) then Err(AmmError.MissingAuditorCt)
    else Verify(cfg, BatchSettle, proof,
                SettleInputs(w.amm, batch, outputs, w.amm.reserves.value.reserveCm, postReserveCm))
  }

  function Settled(amm: Amm, batch: nat, reserves: EncReserves): Amm {
    amm.(settled := amm.settled + {batch}, batchSeq := batch + 1, reserves := Some(reserves))
  }

  function SettleBatch(cfg: Config, w: World, batch: nat, proof: Proof, outputs: seq<Output>,
                       postReserveCm: nat, postEncReserves: Bytes): Result<(World, ()), AmmError>
  {
    var _ :- CheckSettle(cfg, w, batch, proof, outputs, postReserveCm);
    var (c, _) :- InsertAll(cfg, w.core, w.amm.addr, outputs);
    Ok((World(c, Settled(w.amm, batch, EncReserves(postReserveCm, postEncReserves))), ()))
  }

  function AddLiquidityNotes(cfg: Config, w: World, proof: Proof, root: nat, nfIn0: nat, nfIn1: nat, lpCommit: nat,
                             ct: Bytes, postReserveCm: nat, postEncReserves: Bytes): Result<(World, ()), AmmError>
  {
    if !RootIsKnown(cfg, w.core, root) then Err(AmmError.UnknownRoot)
    else if w.amm.reserves.None? then Err(ReserveMismatch)
    else
      var _ :- Verify(cfg, AddLiquidity, proof,
                      [root, nfIn0, nfIn1, lpCommit, w.amm.reserves.value.reserveCm, postReserveCm]);
      var (c1, _) :- PoolSpendIfSet(w.core, w.amm.addr, nfIn0);
      var (c2, _) :- PoolSpendIfSet(c1, w.amm.addr, nfIn1);
      var (c3, _) :- CoreCall(InsertCommitment(cfg, c2, w.amm.addr, lpCommit, ct));
      var a := w.amm.(reserves := Some(EncReserves(postReserveCm, postEncReserves)), lps := w.amm.lps + {lpCommit});
      Ok((World(c3, a), ()))
  }

  function RemoveLiquidityNotes(cfg: Config, w: World, proof: Proof, root: nat, lpNf: nat, cmOut0: nat, cmOut1: nat,
                                ct0: Bytes, ct1: Bytes, postReserveCm: nat, postEncReserves: Bytes, lpCommit: nat)
    : Result<(World, ()), AmmError>
  {
    if lpCommit !in w.amm.lps then Err(UnknownLp)
    else if !RootIsKnown(cfg, w.core, root) then Err(AmmError.UnknownRoot)
    else if w.amm.reserves.None? then Err(ReserveMismatch)
    else
      var _ :- Verify(cfg, RemoveLiquidity, proof,
                      [root, lpNf, cmOut0, cmOut1, w.amm.reserves.value.reserveCm, postReserveCm]);
      var (c1, _) :- CoreCall(Spend(w.core, w.amm.addr, lpNf));
      var (c2, _) :- PoolInsertIfSet(cfg, c1, w.amm.addr, cmOut0, ct0);
      var (c3, _) :- PoolInsertIfSet(cfg, c2, w.amm.addr, cmOut1, ct1);
      Ok((World(c3, w.amm.(reserves := Some(EncReserves(postReserveCm, postEncReserves)))), ()))
  }

  function RefundOrder(cfg: Config, w: World, ledger: nat, batch: nat, slot: nat, proof: Proof, root: nat,
                       cmRefund: nat, ct: Bytes): Result<(World, nat), AmmError>
  {
    if batch in w.amm.settled then Err(AlreadySettled)
    else if ledger <= Deadline(w.amm, batch) then Err(NotExpired)
    else if (batch, slot) !in w.amm.orders then Err(UnknownOrder)
    else if (batch, slot) in w.amm.refunded then Err(AlreadyRefunded)
    else if |ct| == 0 then Err(AmmError.MissingAuditorCt)
    else if !RootIsKnown(cfg, w.core, root) then Err(AmmError.UnknownRoot)
    else
      var _ :- Verify(cfg, SettleOrRefund, proof,
                      [batch, w.amm.orders[(batch, slot)].nfIn, cmRefund, root, Deadline(w.amm, batch)]);
      var (c, idx) :- CoreCall(InsertCommitment(cfg, w.core, w.amm.addr, cmRefund, ct));
      Ok((World(c, w.amm.(refunded := w.amm.refunded + {(batch, slot)})), idx))
  }

  /** The committee sets the reserves once. */
  function InitializeReserves(w: World, reserveCm: nat, encData: Bytes): Result<(World, ()), AmmError> {
    if w.amm.reserves.Some? then Err(Trap)
    else Ok((w.(amm := w.amm.(reserves := Some(EncReserves(reserveCm, encData)))), ()))
  }
}
