/** The lending module's entry points as functions of its loans and the core's state. */
module LendState {
  import opened Words
  import opened CoreState
  import LendCircuit

  datatype LendError =
    BadProof | UnknownRoot | NoPrice | StaleOracle | OracleMismatch | MissingAuditorCt | LoanNotFound | Healthy
    | CoreCallFailed | AlreadyClosed | Overflow

  type Asset = nat

  type I128 = v: int | IsI128(v) witness 0

  datatype PriceData = PriceData(price: I128, timestamp: nat)

  /**
   * What a call reads from outside: the ledger time and the oracle's feeds, absent ones and failing calls being None.
   */
  datatype Feed = Feed(now: nat, last: Asset -> Option<PriceData>)

  datatype OracleClaim = OracleClaim(oraclePrice: I128, oracleDecimals: nat, borrowPrice: I128)

  datatype LoanRec = LoanRec(collatNf: nat, borrowCm: nat, openOraclePrice: I128, openBorrowPrice: I128, ltvMaxBps: nat,
                             closed: bool)

  datatype Lend = Lend(addr: Address, ltvBps: nat, staleness: nat, loanSeq: nat, loans: map<nat, LoanRec>)

  datatype LendWorld = LendWorld(core: Core, lend: Lend)

  function LendCall<T>(r: Result<T, VeilError>): Result<T, LendError> {
    match r
    case Ok(x) => Ok(x)
    case Err(_) => Err(CoreCallFailed)
  }

  function LendVerify(cfg: Config, vk: VkId, proof: Proof, inputs: seq<nat>): Result<(), LendError> {
    if cfg.verify(vk, proof, inputs) == Ok(true) then Ok(()) else Err(LendError.BadProof)
  }

  /** A timestamp in the future counts as age zero. */
  function OraclePrice(lend: Lend, feed: Feed, asset: Asset): Result<I128, LendError> {
    match feed.last(asset)
    case None => Err(NoPrice)
    case Some(d) =>
      if (if feed.now >= d.timestamp then feed.now - d.timestamp else 0) > lend.staleness then Err(StaleOracle)
      else Ok(d.price)
  }

  /** The feed has reported this price, no longer ago than the staleness bound; a report from the future is not old. */
  predicate IsFresh(lend: Lend, feed: Feed, asset: Asset, price: I128) {
    && feed.last(asset).Some?
    && feed.last(asset).value.price == price
    && feed.now <= feed.last(asset).value.timestamp + lend.staleness
  }

  /** A price is read exactly when it is fresh. */
  lemma ReadsExactlyFreshPrices(lend: Lend, feed: Feed, asset: Asset, price: I128)
    ensures OraclePrice(lend, feed, asset) == Ok(price) <==> IsFresh(lend, feed, asset, price)
    ensures OraclePrice(lend, feed, asset) == Err(NoPrice) <==> feed.last(asset).None?
  {}

  /** [root, collat_nf, borrow_cm, oracle_price, oracle_decimals, ltv_max_bps, borrow_price] */
  function LendInputs(lend: Lend, root: nat, collatNf: nat, borrowCm: nat, claim: OracleClaim): seq<nat> {
    [root, collatNf, borrowCm, LendCircuit.I128AsField(claim.oraclePrice), claim.oracleDecimals, lend.ltvBps,
     LendCircuit.I128AsField(claim.borrowPrice)]
  }

  /** Everything a loan is refused for before anything changes; otherwise the two prices read. */
  function CheckLoan(cfg: Config, w: LendWorld, feed: Feed, proof: Proof, collatNf: nat, borrowCm: nat, ct: Bytes,
                     collatAsset: Asset, borrowAsset: Asset, root: nat, claim: OracleClaim)
    : Result<(I128, I128), LendError>
  {
    if |ct| == 0 then Err(LendError.MissingAuditorCt)
    else if !RootIsKnown(cfg, w.core, root) then Err(LendError.UnknownRoot)
    else
      var collatPrice :- OraclePrice(w.lend, feed, collatAsset);
      var borrowPrice :- OraclePrice(w.lend, feed, borrowAsset);
      if collatPrice != claim.oraclePrice || borrowPrice != claim.borrowPrice then Err(OracleMismatch)
      else
        var _ :- LendVerify(cfg, VkId.Lend, proof, LendInputs(w.lend, root, collatNf, borrowCm, claim));
        Ok((collatPrice, borrowPrice))
  }

  function OpenLoan(cfg: Config, w: LendWorld, feed: Feed, proof: Proof, collatNf: nat, borrowCm: nat, ct: Bytes,
                    collatAsset: Asset, borrowAsset: Asset, root: nat, claim: OracleClaim)
    : Result<(LendWorld, nat), LendError>
  {
    var (collatPrice, borrowPrice) :-
      CheckLoan(cfg, w, feed, proof, collatNf, borrowCm, ct, collatAsset, borrowAsset, root, claim);
    var (c1, _) :- LendCall(Lock(w.core, w.lend.addr, collatNf));
    var (c2, _) :- LendCall(InsertCommitment(cfg, c1, w.lend.addr, borrowCm, ct));
    var id := w.lend.loanSeq;
    var rec := LoanRec(collatNf, borrowCm, collatPrice, borrowPrice, w.lend.ltvBps, false);
    Ok((LendWorld(c2, w.lend.(loans := w.lend.loans[id := rec], loanSeq := id + 1)), id))
  }

  function FindOpen(lend: Lend, id: nat): Result<LoanRec, LendError> {
    if id !in lend.loans then Err(LoanNotFound)
    else if lend.loans[id].closed then Err(AlreadyClosed)
    else Ok(lend.loans[id])
  }

  function Close(lend: Lend, id: nat): Lend
    requires id in lend.loans
  {
    lend.(loans := lend.loans[id := lend.loans[id].(closed := true)])
  }

  function Repay(cfg: Config, w: LendWorld, proof: Proof, repayNf: nat, id: nat, root: nat)
    : Result<(LendWorld, ()), LendError>
  {
    var rec :- FindOpen(w.lend, id);
    if !RootIsKnown(cfg, w.core, root) then Err(LendError.UnknownRoot)
    else
      var _ :- LendVerify(cfg, VkId.Repay, proof, [root, repayNf, rec.borrowCm]);
      var (c1, _) :- LendCall(Spend(w.core, w.lend.addr, repayNf));
      var (c2, _) :- LendCall(Unlock(c1, w.lend.addr, rec.collatNf));
      Ok((LendWorld(c2, Close(w.lend, id)), ()))
  }

  /** Fails with an overflow, or says whether the loan is unhealthy at the price. */
  function Unhealthy(rec: LoanRec, price: I128): Result<bool, LendError> {
    if !IsI128(price * 10000) || !IsI128(rec.openOraclePrice * rec.ltvMaxBps) then Err(Overflow)
    else Ok(price * 10000 < rec.openOraclePrice * rec.ltvMaxBps)
  }

  /** Unlock, then spend, the collateral. */
  function Seize(core: Core, caller: Address, nf: nat): Result<(Core, ()), LendError> {
    var (c1, _) :- LendCall(Unlock(core, caller, nf));
    LendCall(Spend(c1, caller, nf))
  }

  function Liquidate(w: LendWorld, feed: Feed, id: nat, asset: Asset): Result<(LendWorld, ()), LendError> {
    var rec :- FindOpen(w.lend, id);
    var price :- OraclePrice(w.lend, feed, asset);
    var unhealthy :- Unhealthy(rec, price);
    if !unhealthy then Err(Healthy)
    else
      var (c, _) :- Seize(w.core, w.lend.addr, rec.collatNf);
      Ok((LendWorld(c, Close(w.lend, id)), ()))
  }
}
