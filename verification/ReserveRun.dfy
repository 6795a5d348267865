/** Pool reserves over whole runs of settlements, deposits and withdrawals. */
module ReserveRun {
  import opened Words
  import opened Field
  import opened BatchCircuit
  import Liquidity

  /** A settlement, as far as the reserves go. */
  predicate SettleStep(pre: Reserves, post: Reserves) {
    post.shares == pre.shares && pre.a * pre.b <= post.a * post.b
  }

  ghost predicate AddStep(pre: Reserves, post: Reserves) {
    exists x: nat, y: nat, s: nat :: Liquidity.Adds(pre, post, x, y, s)
  }

  ghost predicate RemoveStep(pre: Reserves, post: Reserves) {
    exists x: nat, y: nat, s: nat :: Liquidity.Removes(pre, post, x, y, s)
  }

  ghost predicate Step(pre: Reserves, post: Reserves) {
    SettleStep(pre, post) || AddStep(pre, post) || RemoveStep(pre, post)
  }

  ghost predicate IsRun(run: seq<Reserves>) {
    |run| > 0 && forall i :: 0 <= i < |run| - 1 ==> Step(run[i], run[i + 1])
  }

  function Product(r: Reserves): nat {
    r.a * r.b
  }

  function SquaredShares(r: Reserves): nat {
    r.shares * r.shares
  }

  /** a*b/shares^2 of y is at least that of x, cross-multiplied. */
  predicate NoLessPerShare(x: Reserves, y: Reserves) {
    CrossLeq(Product(x), SquaredShares(x), Product(y), SquaredShares(y))
  }

  /** p / q <= r / s, cross-multiplied. */
  predicate CrossLeq(p: nat, q: nat, r: nat, s: nat) {
    p * s <= r * q
  }

  lemma SquareMonotone(p: nat, q: nat, r: nat, s: nat)
    requires p <= q && r <= s
    ensures p * r <= q * s
  {
    assert p * r <= q * r <= q * s;
  }

  lemma Regroup(a: nat, b: nat, s: nat)
    ensures (a * s) * (b * s) == a * b * (s * s)
  {}

  /** If each reserve keeps its value per share, so does the product per squared share. */
  lemma PerAsset(x: Reserves, y: Reserves)
    requires x.a * y.shares <= y.a * x.shares && x.b * y.shares <= y.b * x.shares
    ensures NoLessPerShare(x, y)
  {
    CrossSquares(x.a, x.b, x.shares, y.a, y.b, y.shares);
  }

  lemma CrossSquares(xa: nat, xb: nat, xs: nat, ya: nat, yb: nat, ys: nat)
    requires xa * ys <= ya * xs && xb * ys <= yb * xs
    ensures xa * xb * (ys * ys) <= ya * yb * (xs * xs)
  {
    SquareMonotone(xa * ys, ya * xs, xb * ys, yb * xs);
    Regroup(xa, xb, ys);
    Regroup(ya, yb, xs);
  }

  lemma SettleKeeps(pre: Reserves, post: Reserves)
    requires SettleStep(pre, post)
    ensures NoLessPerShare(pre, post)
  {
    SquareMonotone(pre.a * pre.b, post.a * post.b, pre.shares * pre.shares, pre.shares * pre.shares);
  }

  lemma DepositKeeps(reserve: nat, total: nat, amount: nat, shares: nat)
    requires shares * reserve <= amount * total
    ensures reserve * (total + shares) <= (reserve + amount) * total
  {
    assert reserve * (total + shares) == reserve * total + shares * reserve;
    assert (reserve + amount) * total == reserve * total + amount * total;
  }

  lemma WithdrawalKeeps(reserve: nat, total: nat, amount: nat, shares: nat)
    requires amount * total <= shares * reserve
    ensures reserve * (total - shares) <= (reserve - amount) * total
  {
    assert reserve * (total - shares) == reserve * total - shares * reserve;
    assert (reserve - amount) * total == reserve * total - amount * total;
  }

  lemma AddKeeps(pre: Reserves, post: Reserves)
    requires AddStep(pre, post) && pre.shares > 0
    ensures NoLessPerShare(pre, post)
  {
    var x: nat, y: nat, s: nat :| Liquidity.Adds(pre, post, x, y, s);
    DepositKeeps(pre.a, pre.shares, x, s);
    DepositKeeps(pre.b, pre.shares, y, s);
    PerAsset(pre, post);
  }

  lemma RemoveKeeps(pre: Reserves, post: Reserves)
    requires RemoveStep(pre, post)
    ensures pre.shares > 0 && NoLessPerShare(pre, post)
  {
    var x: nat, y: nat, s: nat :| Liquidity.Removes(pre, post, x, y, s);
    WithdrawalKeeps(pre.a, pre.shares, x, s);
    WithdrawalKeeps(pre.b, pre.shares, y, s);
    PerAsset(pre, post);
  }

  lemma CancelPositive(x: nat, y: nat, k: nat)
    requires k > 0 && x * k <= y * k
    ensures x <= y
  {
    MulMonotone(y + 1, x, k);
    MulMonotone(y, x, k);
  }

  lemma PerShareTransitive(x: Reserves, y: Reserves, z: Reserves)
    requires y.shares > 0 && NoLessPerShare(x, y) && NoLessPerShare(y, z)
    ensures NoLessPerShare(x, z)
  {
    SquarePositive(y.shares);
    Chain(Product(x), Product(y), Product(z), SquaredShares(x), SquaredShares(y), SquaredShares(z));
  }

  lemma SquarePositive(s: nat)
    requires s > 0
    ensures s * s > 0
  {}

  lemma Chain(px: nat, py: nat, pz: nat, sx: nat, sy: nat, sz: nat)
    requires sy > 0 && CrossLeq(px, sx, py, sy) && CrossLeq(py, sy, pz, sz)
    ensures CrossLeq(px, sx, pz, sz)
  {
    SquareMonotone(px * sy, py * sx, sz, sz);
    SquareMonotone(py * sz, pz * sy, sx, sx);
    assert (px * sy) * sz == (px * sz) * sy;
    assert (py * sx) * sz == (py * sz) * sx;
    assert (pz * sy) * sx == (pz * sx) * sy;
    CancelPositive(px * sz, pz * sx, sy);
  }

  /** While shares remain, no run lowers a*b/shares^2, whatever mix of steps it takes. */
  lemma {:induction false} NeverDecreases(run: seq<Reserves>, i: nat, j: nat)
    requires IsRun(run) && i <= j < |run|
    requires forall k :: i <= k <= j ==> run[k].shares > 0
    ensures NoLessPerShare(run[i], run[j])
    decreases j
  {
    if i < j {
      NeverDecreases(run, i, j - 1);
      var pre, post := run[j - 1], run[j];
      assert Step(run[j - 1], run[j - 1 + 1]);
      if SettleStep(pre, post) {
        SettleKeeps(pre, post);
      } else if AddStep(pre, post) {
        AddKeeps(pre, post);
      } else {
        RemoveKeeps(pre, post);
      }
      PerShareTransitive(run[i], pre, post);
    }
  }

  /** Burning all shares empties both reserves. */
  lemma BurningAllEmpties(pre: Reserves, post: Reserves)
    requires RemoveStep(pre, post)
    ensures post.shares == 0 ==> post.a == 0 && post.b == 0
  {
    var x: nat, y: nat, s: nat :| Liquidity.Removes(pre, post, x, y, s);
    if s == pre.shares {
      AllOf(x, s, pre.a);
      AllOf(y, s, pre.b);
    }
  }

  lemma AllOf(amount: nat, total: nat, reserve: nat)
    requires amount * total <= total * reserve < amount * total + total
    ensures amount == reserve
  {
    MulMonotone(amount + 1, reserve, total);
    MulMonotone(reserve + 1, amount, total);
    MulMonotone(amount, reserve, total);
    MulMonotone(reserve, amount, total);
  }
}
