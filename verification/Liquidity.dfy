/** The liquidity circuits over the scalar field, their integer meaning, and the prover's arithmetic. */
module Liquidity {
  import opened Words
  import opened Field
  import opened Notes
  import opened NoteCircuit
  import opened BatchCircuit

  /** Amounts of the two notes (paid in or out), the shares, and the reserves before and after. */
  datatype Witness = Witness(amount0: Fe, amount1: Fe, shares: Fe,
                             pre: Reserves, preBlinding: Fe, post: Reserves, postBlinding: Fe)

  /** What makes an amount a note that the circuit creates. */
  datatype NewNote = NewNote(asset: Fe, blinding: Fe, ownerPk: Fe)

  predicate Small(r: Reserves) {
    r.a < TWO_64 && r.b < TWO_64 && r.shares < TWO_64
  }

  predicate InRange(w: Witness) {
    w.amount0 < TWO_64 && w.amount1 < TWO_64 && w.shares < TWO_64 && Small(w.pre) && Small(w.post)
  }

  // ---- adding ----------------------------------------------------------------------------

  /** The comparisons of a remainder prop - held with the reserve: satisfiable, and the product of their outputs. */
  predicate RemainderSat(prop: Fe, held: Fe, reserve: Fe) {
    LtSat(TWO_130, Red(prop - held), reserve) && LeqSat(TWO_130, held, prop)
  }

  function RemainderCheck(prop: Fe, held: Fe, reserve: Fe): Fe {
    Red(LtOut(TWO_130, Red(prop - held), reserve) * LeqOut(TWO_130, held, prop))
  }

  /** The same on one asset. */
  predicate ShareSat(amount: Fe, totalShares: Fe, shares: Fe, reserve: Fe) {
    RemainderSat(Red(amount * totalShares), Red(shares * reserve), reserve)
  }

  function ShareCheck(amount: Fe, totalShares: Fe, shares: Fe, reserve: Fe): Fe {
    RemainderCheck(Red(amount * totalShares), Red(shares * reserve), reserve)
  }

  predicate AddConstraints(w: Witness) {
    var first := IsZero(w.pre.shares);
    && InRange(w)
    && w.post.a == Red(w.pre.a + w.amount0) && w.post.b == Red(w.pre.b + w.amount1)
    && w.post.shares == Red(w.pre.shares + w.shares)
    && ShareSat(w.amount0, w.pre.shares, w.shares, w.pre.a) && ShareSat(w.amount1, w.pre.shares, w.shares, w.pre.b)
    && Red((1 - first) * (1 - ShareCheck(w.amount0, w.pre.shares, w.shares, w.pre.a))) == 0
    && Red((1 - first) * (1 - ShareCheck(w.amount1, w.pre.shares, w.shares, w.pre.b))) == 0
    && Red(first * Red(w.shares - w.amount0)) == 0
  }

  /** Shares are the floor of the pro-rata claim of a deposit of `amount` against a positive reserve. */
  predicate IsShareOf(amount: nat, totalShares: nat, shares: nat, reserve: nat) {
    shares * reserve <= amount * totalShares < shares * reserve + reserve
  }

  /** The first deposit mints amount0 shares; a later one the same floor for both assets. */
  predicate Adds(pre: Reserves, post: Reserves, amount0: nat, amount1: nat, shares: nat) {
    && post.a == pre.a + amount0 && post.b == pre.b + amount1 && post.shares == pre.shares + shares
    && if pre.shares == 0 then shares == amount0
       else IsShareOf(amount0, pre.shares, shares, pre.a) && IsShareOf(amount1, pre.shares, shares, pre.b)
  }

  lemma ShareMeans(amount: Fe, totalShares: Fe, shares: Fe, reserve: Fe)
    requires amount < TWO_64 && totalShares < TWO_64 && shares < TWO_64 && reserve < TWO_64
    ensures ShareSat(amount, totalShares, shares, reserve)
    ensures ShareCheck(amount, totalShares, shares, reserve)
            == if IsShareOf(amount, totalShares, shares, reserve) then 1 else 0
  {
    ProductFits(amount, totalShares);
    ProductFits(shares, reserve);
    RemainderMeans(Red(amount * totalShares), Red(shares * reserve), reserve);
  }

  lemma RemainderMeans(prop: Fe, held: Fe, reserve: Fe)
    requires prop <= TWO_128 && held <= TWO_128 && reserve < TWO_64
    ensures RemainderSat(prop, held, reserve)
    ensures RemainderCheck(prop, held, reserve) == if held <= prop < held + reserve then 1 else 0
  {
    LtMeaning(TWO_130, prop - held, reserve);
    Leq130(held, prop);
    BitTimes(LtOut(TWO_130, Red(prop - held), reserve), LeqOut(TWO_130, held, prop));
    RedSmall(LeqOut(TWO_130, held, prop));
  }

  lemma GatesMean(first: Fe, check: Fe, shares: Fe, amount: Fe)
    requires first <= 1 && check <= 1
    ensures Red((1 - first) * (1 - check)) == 0 <==> first == 1 || check == 1
    ensures Red(first * Red(shares - amount)) == 0 <==> first == 0 || shares == amount
  {
    EqualMeaning(shares, amount);
    NotBits(first, check);
    BitTimes(first, Red(shares - amount));
    RedSmall(Red(shares - amount));
  }

  lemma NotBits(b: Fe, c: Fe)
    requires b <= 1 && c <= 1
    ensures Red((1 - b) * (1 - c)) == 0 <==> b == 1 || c == 1
  {
    BitTimes(1 - b, 1 - c);
    RedSmall(1 - c);
  }

  /** The circuit accepts exactly the in-range integer deposits. */
  lemma AddConstraintsMean(w: Witness)
    ensures AddConstraints(w) <==> InRange(w) && Adds(w.pre, w.post, w.amount0, w.amount1, w.shares)
  {
    if InRange(w) {
      ShareMeans(w.amount0, w.pre.shares, w.shares, w.pre.a);
      ShareMeans(w.amount1, w.pre.shares, w.shares, w.pre.b);
      RedSmall(w.pre.a + w.amount0);
      RedSmall(w.pre.b + w.amount1);
      RedSmall(w.pre.shares + w.shares);
      var first := IsZero(w.pre.shares);
      GatesMean(first, ShareCheck(w.amount0, w.pre.shares, w.shares, w.pre.a), w.shares, w.amount0);
      GatesMean(first, ShareCheck(w.amount1, w.pre.shares, w.shares, w.pre.b), w.shares, w.amount0);
    }
  }

  // ---- removing ---------------------------------------------------------------------------

  /** The payout comparisons on one asset. */
  predicate PayoutConstraints(amount: Fe, totalShares: Fe, shares: Fe, reserve: Fe) {
    FloorConstraints(Red(shares * reserve), Red(amount * totalShares), totalShares)
  }

  predicate FloorConstraints(target: Fe, actual: Fe, totalShares: Fe) {
    && LeqSat(TWO_130, actual, target) && LeqOut(TWO_130, actual, target) == 1
    && LtSat(TWO_130, Red(target - actual), totalShares) && LtOut(TWO_130, Red(target - actual), totalShares) == 1
  }

  predicate RemoveConstraints(w: Witness) {
    && InRange(w)
    && w.post.a == Red(w.pre.a - w.amount0) && w.post.b == Red(w.pre.b - w.amount1)
    && w.post.shares == Red(w.pre.shares - w.shares)
    && PayoutConstraints(w.amount0, w.pre.shares, w.shares, w.pre.a)
    && PayoutConstraints(w.amount1, w.pre.shares, w.shares, w.pre.b)
  }

  predicate IsPayoutOf(amount: nat, totalShares: nat, shares: nat, reserve: nat) {
    amount * totalShares <= shares * reserve < amount * totalShares + totalShares
  }

  /** Each payout is the floor of the burned shares' claim. */
  predicate Removes(pre: Reserves, post: Reserves, amount0: nat, amount1: nat, shares: nat) {
    && post.a == pre.a - amount0 && post.b == pre.b - amount1 && post.shares == pre.shares - shares
    && IsPayoutOf(amount0, pre.shares, shares, pre.a) && IsPayoutOf(amount1, pre.shares, shares, pre.b)
  }

  lemma PayoutMeans(amount: Fe, totalShares: Fe, shares: Fe, reserve: Fe)
    requires amount < TWO_64 && totalShares < TWO_64 && shares < TWO_64 && reserve < TWO_64
    ensures PayoutConstraints(amount, totalShares, shares, reserve)
            <==> IsPayoutOf(amount, totalShares, shares, reserve)
  {
    ProductFits(amount, totalShares);
    ProductFits(shares, reserve);
    FloorMeans(Red(shares * reserve), Red(amount * totalShares), totalShares);
  }

  lemma FloorMeans(target: Fe, actual: Fe, totalShares: Fe)
    requires target <= TWO_128 && actual <= TWO_128 && totalShares < TWO_64
    ensures FloorConstraints(target, actual, totalShares) <==> actual <= target < actual + totalShares
  {
    LtMeaning(TWO_130, target - actual, totalShares);
    Leq130(actual, target);
  }

  /** The circuit accepts exactly the in-range integer payouts; no reserve can go below zero. */
  lemma RemoveConstraintsMean(w: Witness)
    ensures RemoveConstraints(w) <==> InRange(w) && Removes(w.pre, w.post, w.amount0, w.amount1, w.shares)
  {
    if InRange(w) {
      PayoutMeans(w.amount0, w.pre.shares, w.shares, w.pre.a);
      PayoutMeans(w.amount1, w.pre.shares, w.shares, w.pre.b);
      DifferenceMeaning(w.post.a, w.pre.a, w.amount0);
      DifferenceMeaning(w.post.b, w.pre.b, w.amount1);
      DifferenceMeaning(w.post.shares, w.pre.shares, w.shares);
    }
  }

  // ---- public inputs -------------------------------------------------------------------------

  /** [root, nf_in_0, nf_in_1, lp_commit, reserve_pre_commit, reserve_post_commit] */
  predicate SatisfiesAdd(hs: Hashes, h: Hash2, depth: nat, inputs: seq<nat>, w: Witness, in0: Owned, in1: Owned,
                         share: NewNote)
  {
    && |inputs| == 6 && AddConstraints(w)
    && Proves(hs, h, depth, inputs[0], inputs[1], in0) && in0.amount == w.amount0
    && Proves(hs, h, depth, inputs[0], inputs[2], in1) && in1.amount == w.amount1
    && inputs[3] == NoteCm(hs, NoteData(w.shares, share.asset, share.blinding, share.ownerPk))
    && inputs[4] == ReserveCm(hs, w.pre, w.preBlinding) && inputs[5] == ReserveCm(hs, w.post, w.postBlinding)
  }

  /** [root, lp_nf, cm_out_0, cm_out_1, reserve_pre_commit, reserve_post_commit] */
  predicate SatisfiesRemove(hs: Hashes, h: Hash2, depth: nat, inputs: seq<nat>, w: Witness, share: Owned, out0: NewNote,
                            out1: NewNote)
  {
    && |inputs| == 6 && RemoveConstraints(w)
    && Proves(hs, h, depth, inputs[0], inputs[1], share) && share.amount == w.shares
    && inputs[2] == NoteCm(hs, NoteData(w.amount0, out0.asset, out0.blinding, out0.ownerPk))
    && inputs[3] == NoteCm(hs, NoteData(w.amount1, out1.asset, out1.blinding, out1.ownerPk))
    && inputs[4] == ReserveCm(hs, w.pre, w.preBlinding) && inputs[5] == ReserveCm(hs, w.post, w.postBlinding)
  }

  // ---- the prover's arithmetic ------------------------------------------------------------------

  function Floor(v: nat, d: nat): nat
    requires d > 0
  {
    v / d
  }

  /** Shares minted for a deposit; None is the division by a zero reserve. */
  function ProverShares(pre: Reserves, amount0: nat): Option<nat> {
    if pre.shares == 0 then Some(amount0)
    else if pre.a == 0 then None
    else Some(Floor(amount0 * pre.shares, pre.a))
  }

  function ProverPayout(total: nat, shares: nat, reserve: nat): Option<nat> {
    if total == 0 then None else Some(Floor(shares * reserve, total))
  }

  lemma FloorUnique(v: nat, d: nat, q: nat)
    requires d > 0
    ensures q * d <= v < q * d + d <==> q == v / d
  {
    assert v == v / d * d + v % d;
    MulMonotone(q + 1, v / d, d);
    MulMonotone(v / d + 1, q, d);
    MulMonotone(q, v / d, d);
    MulMonotone(v / d, q, d);
  }

  /**
   * The prover's shares satisfy the deposit relation exactly when the second asset's floor is the same and both
   * reserves are positive.
   */
  lemma ProverSharesAcceptedIff(pre: Reserves, post: Reserves, amount0: nat, amount1: nat, shares: nat)
    requires ProverShares(pre, amount0) == Some(shares)
    requires post.a == pre.a + amount0 && post.b == pre.b + amount1 && post.shares == pre.shares + shares
    ensures Adds(pre, post, amount0, amount1, shares)
            <==> pre.shares == 0 || (pre.b > 0 && amount1 * pre.shares / pre.b == amount0 * pre.shares / pre.a)
  {
    var claim0: nat, claim1: nat := amount0 * pre.shares, amount1 * pre.shares;
    if pre.shares > 0 && pre.b > 0 {
      FloorUnique(claim0, pre.a, shares);
      FloorUnique(claim1, pre.b, shares);
    }
  }

  /**
   * Against reserves of 100 each and 100 shares, 10 of one asset and 20 of the other earn different floors; the circuit
   * refuses the deposit for the 10 shares that the prover computes.
   */
  lemma UnevenDepositIsRefused(w: Witness)
    requires w.pre == Reserves(100, 100, 100) && w.amount0 == 10 && w.amount1 == 20 && w.shares == 10
    ensures ProverShares(w.pre, w.amount0) == Some(w.shares) && !AddConstraints(w)
  {
    AddConstraintsMean(w);
  }

  lemma PayoutUnique(amount: nat, total: nat, shares: nat, reserve: nat)
    ensures IsPayoutOf(amount, total, shares, reserve) <==> ProverPayout(total, shares, reserve) == Some(amount)
  {
    if total > 0 {
      FloorUnique(shares * reserve, total, amount);
    }
  }

  /** The prover's payouts are the only ones the removal relation accepts, and it accepts them when the shares exist. */
  lemma ProverPayoutsAreTheOnlyOnes(pre: Reserves, post: Reserves, amount0: nat, amount1: nat, shares: nat)
    ensures Removes(pre, post, amount0, amount1, shares)
            <==> && ProverPayout(pre.shares, shares, pre.a) == Some(amount0)
                 && ProverPayout(pre.shares, shares, pre.b) == Some(amount1)
                 && post.a == pre.a - amount0 && post.b == pre.b - amount1 && post.shares == pre.shares - shares
  {
    PayoutUnique(amount0, pre.shares, shares, pre.a);
    PayoutUnique(amount1, pre.shares, shares, pre.b);
  }

  /** Minting against a positive share total and burning the same shares at once returns at most the deposit. */
  lemma MintThenBurnPaysAtMostTheDeposit(pre: Reserves, mid: Reserves, post: Reserves, in0: nat, in1: nat, shares: nat,
                                         out0: nat, out1: nat)
    requires pre.shares > 0
    requires Adds(pre, mid, in0, in1, shares) && Removes(mid, post, out0, out1, shares)
    ensures out0 <= in0 && out1 <= in1
  {
    BurnAtMost(pre.a, pre.shares, in0, shares, out0);
    BurnAtMost(pre.b, pre.shares, in1, shares, out1);
  }

  lemma BurnAtMost(reserve: nat, total: nat, paid: nat, shares: nat, out: nat)
    requires total > 0
    requires shares * reserve <= paid * total
    requires out * (total + shares) <= shares * (reserve + paid)
    ensures out <= paid
  {
    assert shares * (reserve + paid) == shares * reserve + shares * paid;
    assert paid * (total + shares) == paid * total + paid * shares;
    MulMonotone(paid + 1, out, total + shares);
    MulMonotone(paid, out, total + shares);
  }
}
