/** The committee's batch clearing, its uniqueness, and what a settlement does to the pool's value. */
module Clearing {
  import opened Words
  import opened Field
  import opened Notes
  import opened BatchCircuit

  datatype ClearingState = ClearingState(price: Price, preA: nat, preB: nat, feeA: nat, feeB: nat)

  datatype Clearing = Clearing(amountsOut: seq<nat>, isExcluded: seq<nat>, cmOuts: seq<nat>, postA: int, postB: int)

  /** The per-order and conservation constraints, with no bound on the numbers. */
  ghost predicate IsClearing(st: ClearingState, orders: seq<Order>, c: Clearing) {
    && |c.amountsOut| == |c.isExcluded| == |orders|
    && (forall j :: 0 <= j < |orders| ==>
                      BuysOne(st.price, orders[j]) && Clears(st.price, orders[j], c.amountsOut[j], c.isExcluded[j]))
    && TotalIn(orders, st.price.assetB) + st.preA == TotalOut(orders, c.amountsOut, st.price.assetA) + c.postA + st.feeA
    && TotalIn(orders, st.price.assetA) + st.preB == TotalOut(orders, c.amountsOut, st.price.assetB) + c.postB + st.feeB
  }

  // ---- uniqueness -------------------------------------------------------------------

  lemma ClearsUnique(amountIn: nat, minOut: nat, priceIn: nat, priceOut: nat, out1: nat, ex1: nat, out2: nat, ex2: nat)
    requires ClearsAt(amountIn, minOut, priceIn, priceOut, out1, ex1)
    requires ClearsAt(amountIn, minOut, priceIn, priceOut, out2, ex2)
    ensures out1 == out2 && ex1 == ex2
  {
    MulMonotone(out1 + 1, out2, priceOut);
    MulMonotone(out2 + 1, out1, priceOut);
    MulMonotone(minOut, out1, priceOut);
    MulMonotone(minOut, out2, priceOut);
  }

  /** At a fixed price at most one clearing of the orders exists. */
  lemma ClearingUnique(st: ClearingState, orders: seq<Order>, c1: Clearing, c2: Clearing)
    requires IsClearing(st, orders, c1) && IsClearing(st, orders, c2)
    ensures c1.amountsOut == c2.amountsOut && c1.isExcluded == c2.isExcluded
    ensures c1.postA == c2.postA && c1.postB == c2.postB
  {
    forall j | 0 <= j < |orders|
      ensures c1.amountsOut[j] == c2.amountsOut[j] && c1.isExcluded[j] == c2.isExcluded[j]
    {
      var o := orders[j];
      ClearsUnique(o.amountIn, o.minOut, PriceIn(st.price, o), PriceOut(st.price, o),
                   c1.amountsOut[j], c1.isExcluded[j], c2.amountsOut[j], c2.isExcluded[j]);
    }
    assert c1.amountsOut == c2.amountsOut;
  }

  lemma FloorClears(amountIn: nat, minOut: nat, priceIn: nat, priceOut: nat)
    requires priceOut > 0
    ensures var q := amountIn * priceIn / priceOut;
            if q >= minOut then ClearsAt(amountIn, minOut, priceIn, priceOut, q, 0)
            else ClearsAt(amountIn, minOut, priceIn, priceOut, 0, 1)
  {
    var q := amountIn * priceIn / priceOut;
    FloorBounds(amountIn * priceIn, priceOut);
    MulMonotone(q + 1, minOut, priceOut);
  }

  lemma FloorBounds(v: nat, d: nat)
    requires d > 0
    ensures v / d * d <= v < (v / d + 1) * d
  {
    assert v == v / d * d + v % d;
  }

  // ---- the committee's loop ------------------------------------------------------------

  /** A division by a zero price, which aborts the clearing. */
  predicate DividesByZero(p: Price, o: Order) {
    if o.assetOut == p.assetB then p.den == 0 else o.assetOut == p.assetA && p.num == 0
  }

  /** What the loop decides about one order, whichever asset it names. */
  predicate Decides(p: Price, o: Order, amountOut: nat, isExcluded: nat) {
    if o.assetOut == p.assetB then ClearsAt(o.amountIn, o.minOut, p.num, p.den, amountOut, isExcluded)
    else if o.assetOut == p.assetA then ClearsAt(o.amountIn, o.minOut, p.den, p.num, amountOut, isExcluded)
    else amountOut == 0 && isExcluded == 1
  }

  /** One order at the clearing price: the floor of its claim, or excluded when that is below its minimum. */
  method ClearOrder(p: Price, o: Order) returns (amountOut: nat, excluded: nat)
    requires !DividesByZero(p, o)
    ensures Decides(p, o, amountOut, excluded)
  {
    amountOut, excluded := 0, 0;
    if o.assetOut == p.assetB {
      FloorClears(o.amountIn, o.minOut, p.num, p.den);
      var theoreticalOut := o.amountIn * p.num / p.den;
      if theoreticalOut >= o.minOut {
        amountOut := theoreticalOut;
      } else {
        excluded := 1;
      }
    } else if o.assetOut == p.assetA {
      FloorClears(o.amountIn, o.minOut, p.den, p.num);
      var theoreticalOut := o.amountIn * p.den / p.num;
      if theoreticalOut >= o.minOut {
        amountOut := theoreticalOut;
      } else {
        excluded := 1;
      }
    } else {
      excluded := 1;
    }
  }

  /** The note is of this amount of the asset that the order buys, under its blinding and to its owner. */
  predicate Pays(n: NoteData, o: Order, amount: nat) {
    n.amount == amount && n.assetId == o.assetOut && n.blinding == o.outBlinding && n.ownerPk == o.outOwnerPk
  }

  /** On orders for the two distinct pool assets the result is the clearing; a zero price that is divided by aborts. */
  method ClearBatch(hs: Hashes, orders: seq<Order>, st: ClearingState) returns (r: Option<Clearing>)
    ensures r.None? <==> exists j :: 0 <= j < |orders| && DividesByZero(st.price, orders[j])
    ensures r.Some? ==>
              && |r.value.amountsOut| == |r.value.isExcluded| == |r.value.cmOuts| == |orders|
              && (forall j :: 0 <= j < |orders| ==>
                                Decides(st.price, orders[j], r.value.amountsOut[j], r.value.isExcluded[j]))
              && (forall j, n :: 0 <= j < |orders| && Pays(n, orders[j], r.value.amountsOut[j]) ==>
                                   r.value.cmOuts[j] == NoteCm(hs, n))
              && (Injective4(hs.h4) ==>
                    forall j, n :: 0 <= j < |orders| && r.value.cmOuts[j] == NoteCm(hs, n) ==>
                                     Pays(n, orders[j], r.value.amountsOut[j]))
    ensures r.Some? && st.price.assetA != st.price.assetB
            && (forall j :: 0 <= j < |orders| ==> BuysOne(st.price, orders[j]))
            ==> IsClearing(st, orders, r.value)
  {
    var amountsOut: seq<nat>, isExcluded: seq<nat>, cmOuts: seq<nat> := [], [], [];
    var sellA: nat, sellB: nat, buyA: nat, buyB: nat := 0, 0, 0, 0;
    var p := st.price;
    for j := 0 to |orders|
      invariant |amountsOut| == |isExcluded| == |cmOuts| == j
      invariant forall i :: 0 <= i < j ==>
                              && !DividesByZero(p, orders[i]) && Decides(p, orders[i], amountsOut[i], isExcluded[i])
                              && cmOuts[i] == OutputCm(hs, orders[i], amountsOut[i])
      invariant p.assetA != p.assetB ==> Totals(p, orders[..j], amountsOut, sellA, sellB, buyA, buyB)
    {
      var o := orders[j];
      if DividesByZero(p, o) {
        return None;
      }
      var amountOut, excluded := ClearOrder(p, o);
      if p.assetA != p.assetB {
        TotalsStep(p, orders[..j], o, amountsOut, amountOut, sellA, sellB, buyA, buyB);
        assert orders[..j + 1] == orders[..j] + [o];
      }
      if o.assetOut == p.assetB {
        buyB := buyB + amountOut;
        sellA := sellA + o.amountIn;
      } else if o.assetOut == p.assetA {
        buyA := buyA + amountOut;
        sellB := sellB + o.amountIn;
      }
      cmOuts := cmOuts + [OutputCm(hs, o, amountOut)];
      amountsOut := amountsOut + [amountOut];
      isExcluded := isExcluded + [excluded];
    }
    assert orders[..|orders|] == orders;
    var postA := st.preA + sellA - buyA - st.feeA;
    var postB := st.preB + sellB - buyB - st.feeB;
    r := Some(Clearing(amountsOut, isExcluded, cmOuts, postA, postB));
    OutputsPay(hs, orders, amountsOut, cmOuts);
    DecisionsClear(st, orders, r.value, sellA, sellB, buyA, buyB);
  }

  /** On orders for the two distinct pool assets the loop's decisions and totals make a clearing. */
  lemma DecisionsClear(st: ClearingState, orders: seq<Order>, c: Clearing, sellA: nat, sellB: nat, buyA: nat,
                       buyB: nat)
    requires |c.amountsOut| == |c.isExcluded| == |orders|
    requires forall j :: 0 <= j < |orders| ==> Decides(st.price, orders[j], c.amountsOut[j], c.isExcluded[j])
    requires st.price.assetA != st.price.assetB
             ==> Totals(st.price, orders, c.amountsOut, sellA, sellB, buyA, buyB)
    requires c.postA == st.preA + sellA - buyA - st.feeA && c.postB == st.preB + sellB - buyB - st.feeB
    ensures st.price.assetA != st.price.assetB && (forall j :: 0 <= j < |orders| ==> BuysOne(st.price, orders[j]))
            ==> IsClearing(st, orders, c)
  {}

  lemma OutputsPay(hs: Hashes, orders: seq<Order>, outs: seq<nat>, cms: seq<nat>)
    requires |outs| == |cms| == |orders|
    requires forall j :: 0 <= j < |orders| ==> cms[j] == OutputCm(hs, orders[j], outs[j])
    ensures forall j, n :: 0 <= j < |orders| && Pays(n, orders[j], outs[j]) ==> cms[j] == NoteCm(hs, n)
    ensures Injective4(hs.h4) ==>
              forall j, n :: 0 <= j < |orders| && cms[j] == NoteCm(hs, n) ==> Pays(n, orders[j], outs[j])
  {
    forall j, n | 0 <= j < |orders| && Injective4(hs.h4) && cms[j] == NoteCm(hs, n)
      ensures Pays(n, orders[j], outs[j])
    {
      var o := orders[j];
      OpeningIsUnique(hs, n, NoteData(outs[j], o.assetOut, o.outBlinding, o.outOwnerPk));
    }
  }

  /** The four running totals of the loop. */
  ghost predicate Totals(p: Price, orders: seq<Order>, outs: seq<nat>, sellA: nat, sellB: nat, buyA: nat, buyB: nat)
    requires |outs| == |orders|
  {
    && sellA == TotalIn(orders, p.assetB) && sellB == TotalIn(orders, p.assetA)
    && buyA == TotalOut(orders, outs, p.assetA) && buyB == TotalOut(orders, outs, p.assetB)
  }

  lemma TotalsStep(p: Price, orders: seq<Order>, o: Order, outs: seq<nat>, out: nat, sellA: nat, sellB: nat, buyA: nat,
                   buyB: nat)
    requires |outs| == |orders| && p.assetA != p.assetB
    requires Totals(p, orders, outs, sellA, sellB, buyA, buyB)
    ensures Totals(p, orders + [o], outs + [out],
                   sellA + (if o.assetOut == p.assetB then o.amountIn else 0),
                   sellB + (if o.assetOut == p.assetA then o.amountIn else 0),
                   buyA + (if o.assetOut == p.assetA then out else 0),
                   buyB + (if o.assetOut == p.assetB then out else 0))
  {
    assert (orders + [o])[..|orders|] == orders && (outs + [out])[..|outs|] == outs;
  }

  // ---- the clearing satisfies the circuit -------------------------------------------------

  /** Every number of the clearing fits its range check. */
  ghost predicate Fits(st: ClearingState, orders: seq<Order>, c: Clearing) {
    && |c.amountsOut| == |c.isExcluded| == |orders|
    && (forall j :: 0 <= j < |orders| ==>
                      orders[j].amountIn < TWO_64 && orders[j].minOut < TWO_64 && c.amountsOut[j] < TWO_64
                      && c.isExcluded[j] <= 1)
    && st.preA < TWO_64 && st.preB < TWO_64 && st.feeA < TWO_64 && st.feeB < TWO_64
    && 0 < st.price.num < TWO_64 && 0 < st.price.den < TWO_64
    && 0 <= c.postA < TWO_64 && 0 <= c.postB < TWO_64
  }

  ghost function WitnessOf(st: ClearingState, orders: seq<Order>, c: Clearing, shares: Fe, preBlinding: Fe,
                           postBlinding: Fe): Witness
    requires Fits(st, orders, c)
  {
    Witness(orders, seq(|orders|, j requires 0 <= j < |orders| => Fill(c.amountsOut[j], c.isExcluded[j])), st.price,
            Reserves(st.preA, st.preB, shares), preBlinding, Reserves(c.postA, c.postB, shares), postBlinding,
            st.feeA, st.feeB)
  }

  /** A clearing that fits satisfies every constraint of the circuit but one: the reserve product must not shrink. */
  lemma ClearingSatisfiesCircuitIff(st: ClearingState, orders: seq<Order>, c: Clearing, shares: Fe, preBlinding: Fe,
                                    postBlinding: Fe)
    requires IsClearing(st, orders, c) && Fits(st, orders, c) && |orders| <= TWO_64
    ensures Constraints(WitnessOf(st, orders, c, shares, preBlinding, postBlinding))
            <==> st.preA * st.preB <= c.postA * c.postB
  {
    var w := WitnessOf(st, orders, c, shares, preBlinding, postBlinding);
    assert Outs(w.fills) == c.amountsOut;
    ConstraintsMeanSettles(w);
    assert OrdersClear(w);
  }

  /** Reserves of 100 each, and one order that sells 10 of A at par for any B: the product falls from 10000 to 9900. */
  lemma ShrinkingClearingIsRefused()
    ensures var p := Price(1, 1, 1, 2);
            var st := ClearingState(p, 100, 100, 0, 0);
            var orders, c := [Order(10, 2, 0, 0, 0, 0)], Clearing([10], [0], [0], 110, 90);
            && IsClearing(st, orders, c) && Fits(st, orders, c)
            && !Constraints(WitnessOf(st, orders, c, 1, 0, 0))
  {
    var p := Price(1, 1, 1, 2);
    var orders: seq<Order>, outs: seq<nat> := [Order(10, 2, 0, 0, 0, 0)], [10];
    assert orders[..0] == [] && outs[..0] == [];
    assert TotalIn(orders, 2) == 10 && TotalIn(orders, 1) == 0;
    assert TotalOut(orders, outs, 2) == 10 && TotalOut(orders, outs, 1) == 0;
    ClearingSatisfiesCircuitIff(ClearingState(p, 100, 100, 0, 0), orders, Clearing([10], [0], [0], 110, 90), 1, 0, 0);
  }

  /**
   * Reserves of 1000 each, and one order that sells 100 of A for no less than 1000 of B: it is excluded and paid
   * nothing, its 100 go to the reserve, and the circuit accepts.
   */
  lemma ExcludedInputStaysInThePool()
    ensures var p := Price(9, 10, 1, 2);
            var st := ClearingState(p, 1000, 1000, 0, 0);
            var orders, c := [Order(100, 2, 1000, 0, 0, 0)], Clearing([0], [1], [0], 1100, 1000);
            && IsClearing(st, orders, c) && Fits(st, orders, c)
            && Constraints(WitnessOf(st, orders, c, 1, 0, 0))
  {
    var p := Price(9, 10, 1, 2);
    var orders: seq<Order>, outs: seq<nat> := [Order(100, 2, 1000, 0, 0, 0)], [0];
    assert orders[..0] == [] && outs[..0] == [];
    assert TotalIn(orders, 2) == 100 && TotalIn(orders, 1) == 0;
    assert TotalOut(orders, outs, 2) == 0 && TotalOut(orders, outs, 1) == 0;
    ClearingSatisfiesCircuitIff(ClearingState(p, 1000, 1000, 0, 0), orders, Clearing([0], [1], [0], 1100, 1000), 1, 0,
                                0);
  }

  // ---- pool value -----------------------------------------------------------------------

  /** What the pool gains on one order, in units of the clearing price. */
  function Residue(p: Price, o: Order, out: nat): int {
    o.amountIn * PriceIn(p, o) - out * PriceOut(p, o)
  }

  function TotalResidue(p: Price, orders: seq<Order>, outs: seq<nat>): int
    requires |outs| == |orders|
  {
    if orders == [] then 0
    else
      var n := |orders| - 1;
      TotalResidue(p, orders[..n], outs[..n]) + Residue(p, orders[n], outs[n])
  }

  function OrderMaxGain(p: Price, o: Order, f: Fill): int {
    if f.isExcluded == 1 then o.amountIn * PriceIn(p, o) else PriceOut(p, o) - 1
  }

  /** The most the pool may gain: less than one output unit per filled order, the whole input per excluded order. */
  function MaxGain(p: Price, orders: seq<Order>, fills: seq<Fill>): int
    requires |fills| == |orders|
  {
    if orders == [] then 0
    else
      var n := |orders| - 1;
      MaxGain(p, orders[..n], fills[..n]) + OrderMaxGain(p, orders[n], fills[n])
  }

  function Value(p: Price, a: nat, b: nat): nat {
    a * p.num + b * p.den
  }

  lemma {:induction false} ResidueIsNetFlow(p: Price, orders: seq<Order>, outs: seq<nat>)
    requires |outs| == |orders|
    requires forall j :: 0 <= j < |orders| ==> BuysOne(p, orders[j])
    ensures Value(p, TotalIn(orders, p.assetB), TotalIn(orders, p.assetA))
            == Value(p, TotalOut(orders, outs, p.assetA), TotalOut(orders, outs, p.assetB))
               + TotalResidue(p, orders, outs)
  {
    if orders != [] {
      var n := |orders| - 1;
      ResidueIsNetFlow(p, orders[..n], outs[..n]);
      var o := orders[n];
      var inB, inA := TotalIn(orders[..n], p.assetB), TotalIn(orders[..n], p.assetA);
      var outA, outB := TotalOut(orders[..n], outs[..n], p.assetA), TotalOut(orders[..n], outs[..n], p.assetB);
      if o.assetOut == p.assetB {
        Distribute(inB, o.amountIn, p.num);
        Distribute(outB, outs[n], p.den);
      } else {
        Distribute(inA, o.amountIn, p.den);
        Distribute(outA, outs[n], p.num);
      }
    }
  }

  lemma Distribute(x: int, y: int, z: int)
    ensures (x + y) * z == x * z + y * z
  {}

  lemma OrderResidueBounds(p: Price, o: Order, f: Fill)
    requires Clears(p, o, f.amountOut, f.isExcluded)
    ensures 0 <= Residue(p, o, f.amountOut) <= OrderMaxGain(p, o, f)
  {
    Distribute(f.amountOut, 1, PriceOut(p, o));
  }

  lemma {:induction false} ResidueBounds(p: Price, orders: seq<Order>, fills: seq<Fill>)
    requires |fills| == |orders|
    requires forall j :: 0 <= j < |orders| ==> Clears(p, orders[j], fills[j].amountOut, fills[j].isExcluded)
    ensures 0 <= TotalResidue(p, orders, Outs(fills)) <= MaxGain(p, orders, fills)
  {
    if orders != [] {
      var n := |orders| - 1;
      ResidueBounds(p, orders[..n], fills[..n]);
      assert Outs(fills)[..n] == Outs(fills[..n]);
      OrderResidueBounds(p, orders[n], fills[n]);
    }
  }

  /**
   * At the clearing price, pool value plus fees grows by exactly the rounding kept on filled orders and the
   * inputs kept on excluded ones: never negative, and bounded as MaxGain says.
   */
  lemma SettlementValue(w: Witness)
    requires Settles(w)
    ensures var gain := Value(w.price, w.post.a, w.post.b) + Value(w.price, w.feeA, w.feeB)
                        - Value(w.price, w.pre.a, w.pre.b);
            gain == TotalResidue(w.price, w.orders, Outs(w.fills)) && 0 <= gain <= MaxGain(w.price, w.orders, w.fills)
  {
    ResidueIsNetFlow(w.price, w.orders, Outs(w.fills));
    ResidueBounds(w.price, w.orders, w.fills);
    ValueBalance(w.price, TotalIn(w.orders, w.price.assetB), TotalIn(w.orders, w.price.assetA),
                 TotalOut(w.orders, Outs(w.fills), w.price.assetA), TotalOut(w.orders, Outs(w.fills), w.price.assetB),
                 w.pre, w.post, w.feeA, w.feeB);
  }

  lemma ScaledBalance(sold: nat, pre: nat, bought: nat, post: nat, fee: nat, price: nat)
    requires sold + pre == bought + post + fee
    ensures sold * price + pre * price == bought * price + post * price + fee * price
  {
    Distribute(sold, pre, price);
    Distribute(bought + post, fee, price);
    Distribute(bought, post, price);
  }

  lemma ValueBalance(p: Price, inA: nat, inB: nat, outA: nat, outB: nat, pre: Reserves, post: Reserves, feeA: nat,
                     feeB: nat)
    requires inA + pre.a == outA + post.a + feeA && inB + pre.b == outB + post.b + feeB
    ensures Value(p, inA, inB) + Value(p, pre.a, pre.b)
            == Value(p, outA, outB) + Value(p, post.a, post.b) + Value(p, feeA, feeB)
  {
    ScaledBalance(inA, pre.a, outA, post.a, feeA, p.num);
    ScaledBalance(inB, pre.b, outB, post.b, feeB, p.den);
  }
}
