/**
 * The lending circuit: its notes, its tree membership and its loan-to-value constraint, over the field and over the
 * integers.
 */
module LendCircuit {
  import opened Words
  import opened Field
  import opened Notes
  import opened NoteCircuit

  datatype Witness = Witness(collat: Owned, borrowAmount: Fe, borrowAsset: Fe, borrowBlinding: Fe)

  /** The borrowed note goes to the owner of the collateral. */
  function BorrowNote(hs: Hashes, w: Witness): NoteData {
    NoteData(w.borrowAmount, w.borrowAsset, w.borrowBlinding, hs.h1(w.collat.ownerSk))
  }

  /** An i128 as its 16 big-endian bytes read back as a number. */
  function I128AsField(v: int): (r: nat)
    requires IsI128(v)
    ensures r < TWO_128 && (r - v) % TWO_128 == 0
  {
    if v >= 0 then v else TWO_128 + v
  }

  predicate LtvConstraints(oraclePrice: Fe, ltvMaxBps: Fe, borrowPrice: Fe, w: Witness) {
    var lhs := Red(Red(w.borrowAmount * borrowPrice) * 10000);
    var rhs := Red(Red(w.collat.amount * oraclePrice) * ltvMaxBps);
    && w.collat.amount < TWO_64 && w.borrowAmount < TWO_64
    && LeqSat(TWO_160, lhs, rhs) && LeqOut(TWO_160, lhs, rhs) == 1
  }

  /** [root, collat_nf, borrow_cm, oracle_price, oracle_decimals, ltv_max_bps, borrow_price] */
  predicate Satisfies(hs: Hashes, h: Hash2, depth: nat, inputs: seq<nat>, w: Witness) {
    && |inputs| == 7
    && inputs[3] < P && inputs[5] < P && inputs[6] < P
    && Proves(hs, h, depth, inputs[0], inputs[1], w.collat)
    && inputs[2] == NoteCm(hs, BorrowNote(hs, w))
    && LtvConstraints(inputs[3], inputs[5], inputs[6], w)
  }

  /** The circuit accepts the same loan on the same note under the nullifier of any other index. */
  lemma AnyIndexSatisfies(hs: Hashes, h: Hash2, depth: nat, inputs: seq<nat>, w: Witness, index: Fe)
    requires Satisfies(hs, h, depth, inputs, w)
    ensures var nf := Nullifier(hs, w.collat.ownerSk, index, NoteCm(hs, NoteOf(hs, w.collat)));
            Satisfies(hs, h, depth, inputs[1 := nf], w.(collat := w.collat.(leafIndex := index)))
  {
    AnyIndexProves(hs, h, depth, inputs[0], inputs[1], w.collat, index);
    assert BorrowNote(hs, w.(collat := w.collat.(leafIndex := index))) == BorrowNote(hs, w);
  }

  lemma ProductBound(x: nat, y: nat, xMax: nat, yMax: nat)
    requires x < xMax && y < yMax
    ensures x * y < xMax * yMax
  {
    assert x * y <= x * yMax;
    assert x * yMax < xMax * yMax;
  }

  /** For 64-bit amounts, non-negative i128 prices and a u32 ratio no field product wraps. */
  lemma ProductsDoNotWrap(amount: nat, price: nat, factor: nat)
    requires amount < TWO_64 && price < TWO_127 && factor < TWO_32
    ensures amount * price < TWO_64 * TWO_127 && amount * price * factor < TWO_64 * TWO_127 * TWO_32
    ensures Red(Red(amount * price) * factor) == amount * price * factor
  {
    ProductBound(amount, price, TWO_64, TWO_127);
    var x := amount * price;
    ProductBound(x, factor, TWO_64 * TWO_127, TWO_32);
    assert TWO_64 * TWO_127 * TWO_32 < P;
    RedSmall(x);
    RedSmall(x * factor);
  }

  /** On integers below 2^223, the 160-bit comparator accepts exactly a non-negative difference below 2^160. */
  lemma Leq160(lhs: nat, rhs: nat)
    requires lhs < TWO_64 * TWO_127 * TWO_32 && rhs < TWO_64 * TWO_127 * TWO_32
    ensures lhs < P && rhs < P
    ensures LeqSat(TWO_160, lhs, rhs) && LeqOut(TWO_160, lhs, rhs) == 1 <==> lhs <= rhs < lhs + TWO_160
  {
    var x := lhs + TWO_160 - (rhs + 1);
    assert 2 * TWO_160 + TWO_64 * TWO_127 * TWO_32 < P;
    if x >= 0 {
      RedSmall(x);
    } else {
      QuotientUnique(x, -1, x + P);
    }
  }

  /** The circuit accepts exactly the loans within the ratio whose headroom fits 160 bits. */
  lemma LtvConstraintsMean(oraclePrice: nat, ltvMaxBps: nat, borrowPrice: nat, w: Witness)
    requires oraclePrice < TWO_127 && borrowPrice < TWO_127 && ltvMaxBps < TWO_32
    ensures oraclePrice < P && borrowPrice < P && ltvMaxBps < P
    ensures LtvConstraints(oraclePrice, ltvMaxBps, borrowPrice, w)
            <==> && w.collat.amount < TWO_64 && w.borrowAmount < TWO_64
                 && w.borrowAmount * borrowPrice * 10000 <= w.collat.amount * oraclePrice * ltvMaxBps
                 && w.collat.amount * oraclePrice * ltvMaxBps < w.borrowAmount * borrowPrice * 10000 + TWO_160
  {
    if w.collat.amount < TWO_64 && w.borrowAmount < TWO_64 {
      ProductsDoNotWrap(w.borrowAmount, borrowPrice, 10000);
      ProductsDoNotWrap(w.collat.amount, oraclePrice, ltvMaxBps);
      Leq160(w.borrowAmount * borrowPrice * 10000, w.collat.amount * oraclePrice * ltvMaxBps);
    }
  }

  /** A loan of nothing against 2^60 units at a price of 2^100 is within any ratio, and the circuit refuses it. */
  lemma AmpleHeadroomIsRefused(w: Witness)
    requires w.collat.amount == 0x1000_0000_0000_0000 && w.borrowAmount == 0
    ensures var price: nat := 0x10_0000_0000_0000_0000_0000_0000;
            && w.borrowAmount * 1 * 10000 <= w.collat.amount * price * 7500
            && !LtvConstraints(price, 7500, 1, w)
  {
    var price: nat := 0x10_0000_0000_0000_0000_0000_0000;
    assert w.collat.amount * price * 7500 >= TWO_160;
    LtvConstraintsMean(price, 7500, 1, w);
  }

  /** A loan opened within the ratio is fully collateralised at every price the health check passes. */
  lemma HealthyIsCollateralised(collat: nat, borrow: nat, openPrice: nat, borrowPrice: nat, ltvMaxBps: nat,
                                current: int)
    requires borrow * borrowPrice * 10000 <= collat * openPrice * ltvMaxBps
    requires current * 10000 >= openPrice * ltvMaxBps
    ensures borrow * borrowPrice <= collat * current
  {
    var threshold := openPrice * ltvMaxBps;
    assert current >= 0;
    assert collat * openPrice * ltvMaxBps == collat * threshold;
    MulMonotone(threshold, current * 10000, collat);
    assert collat * (current * 10000) == collat * current * 10000;
  }
}
