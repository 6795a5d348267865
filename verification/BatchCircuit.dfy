/** The batch settlement circuit over the scalar field, and what its constraints mean for integers. */
module BatchCircuit {
  import opened Words
  import opened Field
  import opened Notes

  datatype Order = Order(amountIn: Fe, assetOut: Fe, minOut: Fe, outBlinding: Fe, outOwnerPk: Fe, rEnc: Fe)

  datatype Fill = Fill(amountOut: Fe, isExcluded: Fe)

  datatype Price = Price(num: Fe, den: Fe, assetA: Fe, assetB: Fe)

  datatype Reserves = Reserves(a: Fe, b: Fe, shares: Fe)

  datatype Witness = Witness(orders: seq<Order>, fills: seq<Fill>, price: Price,
                             pre: Reserves, preBlinding: Fe, post: Reserves, postBlinding: Fe, feeA: Fe, feeB: Fe)

  function ReserveCm(hs: Hashes, r: Reserves, blinding: Fe): nat {
    hs.h4(r.a, r.b, r.shares, blinding)
  }

  function OrderHash(hs: Hashes, o: Order, committeePk: nat): nat {
    hs.h7(o.amountIn, o.assetOut, o.minOut, o.outBlinding, o.outOwnerPk, committeePk, o.rEnc)
  }

  function OutputCm(hs: Hashes, o: Order, amountOut: nat): nat {
    NoteCm(hs, NoteData(amountOut, o.assetOut, o.outBlinding, o.outOwnerPk))
  }

  // ---- constraints over the field -----------------------------------------------------

  /** The comparisons of one order, on the four values amount times price. */
  predicate FillConstraints(inValue: Fe, outValue: Fe, nextValue: Fe, minValue: Fe, minOut: Fe, amountOut: Fe,
                            isExcluded: Fe)
  {
    var filled := Red(1 - isExcluded);
    && isExcluded <= 1
    && LeqSat(TWO_130, outValue, inValue)
    && Red(filled * (1 - LeqOut(TWO_130, outValue, inValue))) == 0
    && LtSat(TWO_130, inValue, nextValue)
    && Red(filled * (1 - LtOut(TWO_130, inValue, nextValue))) == 0
    && LeqSat(TWO_64, minOut, amountOut)
    && Red(filled * (1 - LeqOut(TWO_64, minOut, amountOut))) == 0
    && Red(isExcluded * amountOut) == 0
    && LtSat(TWO_130, inValue, minValue)
    && Red(isExcluded * (1 - LtOut(TWO_130, inValue, minValue))) == 0
  }

  predicate FillConstraintsAt(o: Order, f: Fill, priceIn: Fe, priceOut: Fe) {
    FillConstraints(Red(o.amountIn * priceIn), Red(f.amountOut * priceOut), Red((f.amountOut + 1) * priceOut),
                    Red(o.minOut * priceOut), o.minOut, f.amountOut, f.isExcluded)
  }

  /** The constraints of one order. */
  predicate OrderConstraints(p: Price, o: Order, f: Fill) {
    var isBuyA := IsEqual(o.assetOut, p.assetA);
    var isBuyB := IsEqual(o.assetOut, p.assetB);
    var priceIn := Red(Red(isBuyB * p.num) + Red(isBuyA * p.den));
    var priceOut := Red(Red(isBuyB * p.den) + Red(isBuyA * p.num));
    && o.amountIn < TWO_64 && f.amountOut < TWO_64 && o.minOut < TWO_64
    && Red(isBuyA + isBuyB) == 1
    && FillConstraintsAt(o, f, priceIn, priceOut)
  }

  /** The accumulated amount paid in by orders buying `bought`, summed in the field. */
  function FieldIn(orders: seq<Order>, bought: Fe): Fe {
    if orders == [] then 0
    else
      var n := |orders| - 1;
      Red(FieldIn(orders[..n], bought) + Red(IsEqual(orders[n].assetOut, bought) * orders[n].amountIn))
  }

  function FieldOut(orders: seq<Order>, fills: seq<Fill>, bought: Fe): Fe
    requires |fills| == |orders|
  {
    if orders == [] then 0
    else
      var n := |orders| - 1;
      Red(FieldOut(orders[..n], fills[..n], bought) + Red(IsEqual(orders[n].assetOut, bought) * fills[n].amountOut))
  }

  predicate OrdersConstrained(w: Witness)
    requires |w.fills| == |w.orders|
  {
    forall j :: 0 <= j < |w.orders| ==> OrderConstraints(w.price, w.orders[j], w.fills[j])
  }

  /** The conservation constraint of one asset: `sold` is bought by those who pay it in, `bought` is itself. */
  predicate FieldBalances(orders: seq<Order>, fills: seq<Fill>, sold: Fe, bought: Fe, pre: Fe, post: Fe, fee: Fe)
    requires |fills| == |orders|
  {
    Red(FieldIn(orders, sold) + pre) == Red(Red(FieldOut(orders, fills, bought) + post) + fee)
  }

  predicate FieldConserves(w: Witness)
    requires |w.fills| == |w.orders|
  {
    && FieldBalances(w.orders, w.fills, w.price.assetB, w.price.assetA, w.pre.a, w.post.a, w.feeA)
    && FieldBalances(w.orders, w.fills, w.price.assetA, w.price.assetB, w.pre.b, w.post.b, w.feeB)
  }

  predicate InRange(w: Witness) {
    && w.pre.a < TWO_64 && w.pre.b < TWO_64 && w.post.a < TWO_64 && w.post.b < TWO_64
    && w.feeA < TWO_64 && w.feeB < TWO_64 && w.price.num < TWO_64 && w.price.den < TWO_64
  }

  /** Range checks, price, product, share, per-order and conservation constraints. */
  predicate Constraints(w: Witness) {
    && |w.fills| == |w.orders|
    && InRange(w)
    && IsZero(w.price.num) == 0 && IsZero(w.price.den) == 0
    && LeqSat(TWO_130, Red(w.pre.a * w.pre.b), Red(w.post.a * w.post.b))
    && LeqOut(TWO_130, Red(w.pre.a * w.pre.b), Red(w.post.a * w.post.b)) == 1
    && w.post.shares == w.pre.shares
    && OrdersConstrained(w)
    && FieldConserves(w)
  }

  /** The public input vector of a batch of K orders, in circuit order. */
  predicate Satisfies(hs: Hashes, K: nat, inputs: seq<nat>, w: Witness) {
    && |inputs| == 2 * K + 4 && |w.orders| == K
    && Constraints(w)
    && (forall j :: 0 <= j < K ==> inputs[j] == OrderHash(hs, w.orders[j], inputs[2 * K]))
    && (forall j :: 0 <= j < K ==> inputs[K + j] == OutputCm(hs, w.orders[j], w.fills[j].amountOut))
    && inputs[2 * K + 2] == ReserveCm(hs, w.pre, w.preBlinding)
    && inputs[2 * K + 3] == ReserveCm(hs, w.post, w.postBlinding)
  }

  // ---- meaning over the integers --------------------------------------------------------

  /** The order buys exactly one of the two pool assets. */
  predicate BuysOne(p: Price, o: Order) {
    (o.assetOut == p.assetA) != (o.assetOut == p.assetB)
  }

  function PriceIn(p: Price, o: Order): nat {
    if o.assetOut == p.assetB then p.num else p.den
  }

  function PriceOut(p: Price, o: Order): nat {
    if o.assetOut == p.assetB then p.den else p.num
  }

  /**
   * Filled at the floor of the clearing price and not below the minimum, or excluded because even the minimum is
   * unaffordable.
   */
  predicate Clears(p: Price, o: Order, amountOut: nat, isExcluded: nat) {
    ClearsAt(o.amountIn, o.minOut, PriceIn(p, o), PriceOut(p, o), amountOut, isExcluded)
  }

  predicate ClearsAt(amountIn: nat, minOut: nat, priceIn: nat, priceOut: nat, amountOut: nat, isExcluded: nat) {
    && isExcluded <= 1
    && (if isExcluded == 1
        then amountOut == 0 && amountIn * priceIn < minOut * priceOut
        else amountOut * priceOut <= amountIn * priceIn < (amountOut + 1) * priceOut && minOut <= amountOut)
  }

  function TotalIn(orders: seq<Order>, bought: Fe): nat {
    if orders == [] then 0
    else
      var n := |orders| - 1;
      TotalIn(orders[..n], bought) + if orders[n].assetOut == bought then orders[n].amountIn else 0
  }

  function TotalOut(orders: seq<Order>, outs: seq<nat>, bought: Fe): nat
    requires |outs| == |orders|
  {
    if orders == [] then 0
    else
      var n := |orders| - 1;
      TotalOut(orders[..n], outs[..n], bought) + if orders[n].assetOut == bought then outs[n] else 0
  }

  function Outs(fills: seq<Fill>): seq<nat> {
    seq(|fills|, j requires 0 <= j < |fills| => fills[j].amountOut as nat)
  }

  predicate OrderRanges(o: Order, f: Fill) {
    o.amountIn < TWO_64 && f.amountOut < TWO_64 && o.minOut < TWO_64
  }

  /** Every order buys one pool asset and clears, with 64-bit amounts. */
  predicate OrdersClear(w: Witness)
    requires |w.fills| == |w.orders|
  {
    forall j :: 0 <= j < |w.orders| ==>
                  && OrderRanges(w.orders[j], w.fills[j]) && BuysOne(w.price, w.orders[j])
                  && Clears(w.price, w.orders[j], w.fills[j].amountOut, w.fills[j].isExcluded)
  }

  /** What came in and was there equals what goes out, stays and is kept as fee. */
  predicate Balances(orders: seq<Order>, fills: seq<Fill>, sold: Fe, bought: Fe, pre: Fe, post: Fe, fee: Fe)
    requires |fills| == |orders|
  {
    TotalIn(orders, sold) + pre == TotalOut(orders, Outs(fills), bought) + post + fee
  }

  predicate Conserves(w: Witness)
    requires |w.fills| == |w.orders|
  {
    && Balances(w.orders, w.fills, w.price.assetB, w.price.assetA, w.pre.a, w.post.a, w.feeA)
    && Balances(w.orders, w.fills, w.price.assetA, w.price.assetB, w.pre.b, w.post.b, w.feeB)
  }

  /**
   * What the circuit proves: a clearing at a positive price that conserves value and does not shrink the reserve
   * product.
   */
  predicate Settles(w: Witness) {
    && |w.fills| == |w.orders|
    && InRange(w) && 0 < w.price.num && 0 < w.price.den
    && w.pre.a * w.pre.b <= w.post.a * w.post.b
    && w.post.shares == w.pre.shares
    && OrdersClear(w)
    && Conserves(w)
  }

  // ---- the circuit means exactly that -----------------------------------------------------

  lemma Leq130(x: nat, y: nat)
    requires x <= TWO_128 && y <= TWO_128
    ensures Red(x) == x && Red(y) == y
    ensures LtSat(TWO_130, x, y) && LtOut(TWO_130, x, y) == (if x < y then 1 else 0)
    ensures LeqSat(TWO_130, x, y) && LeqOut(TWO_130, x, y) == (if x <= y then 1 else 0)
  {
    RedSmall(x);
    RedSmall(y);
    LtMeaning(TWO_130, x, y);
    LtMeaning(TWO_130, x, y + 1);
  }

  lemma Leq64(x: nat, y: nat)
    requires x < TWO_64 && y < TWO_64
    ensures x < P && y < P
    ensures LeqSat(TWO_64, x, y) && LeqOut(TWO_64, x, y) == (if x <= y then 1 else 0)
  {
    RedSmall(x);
    LtMeaning(TWO_64, x, y + 1);
  }

  lemma PricesMean(p: Price, o: Order)
    requires p.num < TWO_64 && p.den < TWO_64 && BuysOne(p, o)
    ensures var isBuyA, isBuyB := IsEqual(o.assetOut, p.assetA), IsEqual(o.assetOut, p.assetB);
            && Red(Red(isBuyB * p.num) + Red(isBuyA * p.den)) == PriceIn(p, o)
            && Red(Red(isBuyB * p.den) + Red(isBuyA * p.num)) == PriceOut(p, o)
  {
    var isBuyA, isBuyB := IsEqual(o.assetOut, p.assetA), IsEqual(o.assetOut, p.assetB);
    EqualMeaning(o.assetOut, p.assetA);
    EqualMeaning(o.assetOut, p.assetB);
    BitTimes(isBuyA, p.num);
    BitTimes(isBuyA, p.den);
    BitTimes(isBuyB, p.num);
    BitTimes(isBuyB, p.den);
    RedSmall(p.num);
    RedSmall(p.den);
  }

  lemma OneAsset(p: Price, o: Order)
    ensures Red(IsEqual(o.assetOut, p.assetA) + IsEqual(o.assetOut, p.assetB)) == 1 <==> BuysOne(p, o)
  {
    EqualMeaning(o.assetOut, p.assetA);
    EqualMeaning(o.assetOut, p.assetB);
    RedSmall(IsEqual(o.assetOut, p.assetA) + IsEqual(o.assetOut, p.assetB));
  }

  /** On values that fit, the comparisons say: filled at the floor and above the minimum, or excluded with output 0. */
  lemma FillConstraintsMean(inValue: nat, outValue: nat, nextValue: nat, minValue: nat, minOut: nat, amountOut: nat,
                            isExcluded: Fe)
    requires inValue <= TWO_128 && outValue <= TWO_128 && nextValue <= TWO_128 && minValue <= TWO_128
    requires minOut < TWO_64 && amountOut < TWO_64
    ensures FillConstraints(inValue, outValue, nextValue, minValue, minOut, amountOut, isExcluded)
            <==> isExcluded <= 1 && if isExcluded == 1 then amountOut == 0 && inValue < minValue
                                    else outValue <= inValue < nextValue && minOut <= amountOut
  {
    Leq130(outValue, inValue);
    Leq130(inValue, nextValue);
    Leq130(inValue, minValue);
    Leq64(minOut, amountOut);
    if isExcluded <= 1 {
      var filled := Red(1 - isExcluded);
      GateMeans(isExcluded, LtOut(TWO_130, inValue, minValue));
      GateMeans(filled, LeqOut(TWO_130, outValue, inValue));
      GateMeans(filled, LtOut(TWO_130, inValue, nextValue));
      GateMeans(filled, LeqOut(TWO_64, minOut, amountOut));
      BitTimes(isExcluded, amountOut);
      RedSmall(amountOut);
    }
  }

  lemma FillConstraintsAtMean(o: Order, f: Fill, priceIn: Fe, priceOut: Fe)
    requires OrderRanges(o, f) && priceIn < TWO_64 && priceOut < TWO_64
    ensures FillConstraintsAt(o, f, priceIn, priceOut)
            <==> ClearsAt(o.amountIn, o.minOut, priceIn, priceOut, f.amountOut, f.isExcluded)
  {
    ProductFits(o.amountIn, priceIn);
    ProductFits(f.amountOut, priceOut);
    ProductFits(f.amountOut + 1, priceOut);
    ProductFits(o.minOut, priceOut);
    FillConstraintsMean(Red(o.amountIn * priceIn), Red(f.amountOut * priceOut), Red((f.amountOut + 1) * priceOut),
                        Red(o.minOut * priceOut), o.minOut, f.amountOut, f.isExcluded);
  }

  /** Per order, the field constraints say exactly that the order clears. */
  lemma OrderConstraintsMean(p: Price, o: Order, f: Fill)
    requires p.num < TWO_64 && p.den < TWO_64
    ensures OrderConstraints(p, o, f)
            <==> OrderRanges(o, f) && BuysOne(p, o) && Clears(p, o, f.amountOut, f.isExcluded)
  {
    OneAsset(p, o);
    if OrderRanges(o, f) && BuysOne(p, o) {
      PricesMean(p, o);
      FillConstraintsAtMean(o, f, PriceIn(p, o), PriceOut(p, o));
    }
  }

  lemma OrdersMean(w: Witness)
    requires |w.fills| == |w.orders| && w.price.num < TWO_64 && w.price.den < TWO_64
    ensures OrdersConstrained(w) <==> OrdersClear(w)
  {
    forall j | 0 <= j < |w.orders|
      ensures OrderConstraints(w.price, w.orders[j], w.fills[j])
              <==> OrderRanges(w.orders[j], w.fills[j]) && BuysOne(w.price, w.orders[j])
                   && Clears(w.price, w.orders[j], w.fills[j].amountOut, w.fills[j].isExcluded)
    {
      OrderConstraintsMean(w.price, w.orders[j], w.fills[j]);
    }
  }

  /** A 0/1 selector times a small amount. */
  lemma Picked(x: Fe, y: Fe, v: nat)
    requires v < TWO_64
    ensures Red(IsEqual(x, y) * v) == if x == y then v else 0
  {
    EqualMeaning(x, y);
    BitTimes(IsEqual(x, y), v);
    RedSmall(v);
  }

  lemma {:induction false} FieldInMeans(orders: seq<Order>, bought: Fe)
    requires |orders| <= TWO_64
    requires forall j :: 0 <= j < |orders| ==> orders[j].amountIn < TWO_64
    ensures TotalIn(orders, bought) <= |orders| * TWO_64
    ensures FieldIn(orders, bought) == TotalIn(orders, bought)
  {
    if orders != [] {
      var n := |orders| - 1;
      FieldInMeans(orders[..n], bought);
      Picked(orders[n].assetOut, bought, orders[n].amountIn);
      RedSmall(TotalIn(orders, bought));
    }
  }

  lemma {:induction false} FieldOutMeans(orders: seq<Order>, fills: seq<Fill>, bought: Fe)
    requires |fills| == |orders| <= TWO_64
    requires forall j :: 0 <= j < |fills| ==> fills[j].amountOut < TWO_64
    ensures TotalOut(orders, Outs(fills), bought) <= |orders| * TWO_64
    ensures FieldOut(orders, fills, bought) == TotalOut(orders, Outs(fills), bought)
  {
    if orders != [] {
      var n := |orders| - 1;
      FieldOutMeans(orders[..n], fills[..n], bought);
      assert Outs(fills)[..n] == Outs(fills[..n]);
      Picked(orders[n].assetOut, bought, fills[n].amountOut);
      RedSmall(TotalOut(orders, Outs(fills), bought));
    }
  }

  lemma ConservationMeans(sold: nat, pre: nat, bought: nat, post: nat, fee: nat)
    requires sold <= TWO_128 && bought <= TWO_128 && pre < TWO_64 && post < TWO_64 && fee < TWO_64
    ensures Red(sold + pre) == Red(Red(bought + post) + fee) <==> sold + pre == bought + post + fee
  {
    RedSmall(sold + pre);
    RedSmall(bought + post);
    RedSmall(bought + post + fee);
  }

  /** The circuit is satisfied exactly by the integer settlements: no field product, sum or comparison wraps. */
  lemma ConstraintsMeanSettles(w: Witness)
    requires |w.orders| <= TWO_64
    ensures Constraints(w) <==> Settles(w)
  {
    if |w.fills| == |w.orders| && InRange(w) {
      OrdersMean(w);
      ProductMeans(w);
      if OrdersClear(w) {
        TotalsMean(w);
      }
    }
  }

  lemma ProductMeans(w: Witness)
    requires w.pre.a < TWO_64 && w.pre.b < TWO_64 && w.post.a < TWO_64 && w.post.b < TWO_64
    ensures LeqSat(TWO_130, Red(w.pre.a * w.pre.b), Red(w.post.a * w.post.b))
    ensures LeqOut(TWO_130, Red(w.pre.a * w.pre.b), Red(w.post.a * w.post.b)) == 1
            <==> w.pre.a * w.pre.b <= w.post.a * w.post.b
  {
    Product128(w.pre.a, w.pre.b);
    Product128(w.post.a, w.post.b);
    Leq130(w.pre.a * w.pre.b, w.post.a * w.post.b);
  }

  predicate AllRanges(orders: seq<Order>, fills: seq<Fill>)
    requires |fills| == |orders|
  {
    forall j :: 0 <= j < |orders| ==> OrderRanges(orders[j], fills[j])
  }

  lemma AssetTotalsMean(orders: seq<Order>, fills: seq<Fill>, sold: Fe, bought: Fe, pre: Fe, post: Fe, fee: Fe)
    requires |fills| == |orders| <= TWO_64
    requires AllRanges(orders, fills)
    requires pre < TWO_64 && post < TWO_64 && fee < TWO_64
    ensures FieldBalances(orders, fills, sold, bought, pre, post, fee)
            <==> Balances(orders, fills, sold, bought, pre, post, fee)
  {
    FieldInMeans(orders, sold);
    FieldOutMeans(orders, fills, bought);
    var totalIn, totalOut := TotalIn(orders, sold), TotalOut(orders, Outs(fills), bought);
    ConservationMeans(totalIn, pre, totalOut, post, fee);
  }

  lemma TotalsMean(w: Witness)
    requires |w.fills| == |w.orders| <= TWO_64
    requires InRange(w) && OrdersClear(w)
    ensures FieldConserves(w) <==> Conserves(w)
  {
    assert AllRanges(w.orders, w.fills);
    AssetTotalsMean(w.orders, w.fills, w.price.assetB, w.price.assetA, w.pre.a, w.post.a, w.feeA);
    AssetTotalsMean(w.orders, w.fills, w.price.assetA, w.price.assetB, w.pre.b, w.post.b, w.feeB);
  }
}
