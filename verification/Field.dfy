/** The scalar field of the circuits and the comparator gadgets over it. */
module Field {
  import opened Words

  /** The order of the BN254 scalar field, over which the circuits are compiled. */
  const BN254_ORDER: nat := 21888242871839275222246405745257275088548364400416034343698204186575808495617

  const TWO_230: nat := 0x40_0000_0000_0000_0000_0000_0000_0000_0000_0000_0000_0000_0000_0000_0000

  /** All that the arithmetic of the circuits asks of the field is that its order exceeds 2^230. */
  type FieldOrder = p: nat | p > TWO_230 witness BN254_ORDER

  /** The order: any one that is large enough, so in particular that of BN254. */
  const P: FieldOrder

  const TWO_130: nat := 0x4_0000_0000_0000_0000_0000_0000_0000_0000
  const TWO_160: nat := 0x1_0000_0000_0000_0000_0000_0000_0000_0000_0000_0000

  /** A field element by its canonical representative. */
  type Fe = x: nat | x < P witness 0

  function Red(x: int): Fe {
    x % P
  }

  function IsZero(x: Fe): Fe {
    if x == 0 then 1 else 0
  }

  function IsEqual(x: Fe, y: Fe): Fe {
    IsZero(Red(x - y))
  }

  /**
   * LessThan over n bits, with bound = 2^n: the constraint decomposes a + 2^n - b into n + 1 bits, so it
   * is unsatisfiable when that does not fit, and the output is the negated top bit.
   */
  predicate LtSat(bound: nat, a: Fe, b: int) {
    Red(a + bound - b) < 2 * bound
  }

  function LtOut(bound: nat, a: Fe, b: int): Fe {
    if Red(a + bound - b) < bound then 1 else 0
  }

  predicate LeqSat(bound: nat, a: Fe, b: Fe) {
    LtSat(bound, a, b + 1)
  }

  function LeqOut(bound: nat, a: Fe, b: Fe): Fe {
    LtOut(bound, a, b + 1)
  }

  lemma RedAbsorbs(x: int, y: int)
    ensures Red(Red(x) + y) == Red(x + y)
  {
    var q := x / P;
    assert x == q * P + Red(x);
    var z := Red(x) + y;
    assert z == (z / P) * P + z % P;
    assert x + y == (z / P + q) * P + z % P;
    QuotientUnique(x + y, z / P + q, z % P);
  }

  /** The only multiple of p strictly between -p and p is 0. */
  lemma OnlyZeroMultiple(k: int, p: nat)
    ensures k >= 1 ==> k * p >= p
    ensures k <= -1 ==> k * p + p <= 0
  {
    if k >= 1 {
      assert (k - 1) * p >= 0;
    } else if k <= -1 {
      assert (k + 1) * p <= 0;
    }
  }

  lemma QuotientUnique(x: int, q: int, r: nat)
    requires x == q * P + r && r < P
    ensures x % P == r
  {
    var k := x / P - q;
    assert x == x / P * P + x % P;
    assert k * P == x / P * P - q * P;
    OnlyZeroMultiple(k, P);
  }

  lemma RedSmall(x: int)
    requires 0 <= x < P
    ensures Red(x) == x
  {
    QuotientUnique(x, 0, x);
  }

  /** A bit times a value is the value or 0. */
  lemma BitTimes(b: Fe, v: int)
    requires b <= 1
    ensures Red(b * v) == if b == 1 then Red(v) else 0
  {
    if b == 0 {
      RedSmall(0);
    }
  }

  /** What the two constraints built from a bit and a comparison say. */
  lemma GateMeans(b: Fe, c: Fe)
    requires b <= 1 && c <= 1
    ensures Red(1 - b) == 1 - b
    ensures Red(b * (1 - c)) == 0 <==> b == 0 || c == 1
  {
    RedSmall(1 - b);
    RedSmall(1 - c);
    BitTimes(b, 1 - c);
  }

  /** The comparator decides the integer order of any two integers that differ by at most 2^n. */
  lemma LtMeaning(bound: nat, x: int, b: int)
    requires 0 < bound && 2 * bound < P
    requires b - bound <= x < b + bound
    ensures LtSat(bound, Red(x), b)
    ensures LtOut(bound, Red(x), b) == if x < b then 1 else 0
  {
    RedAbsorbs(x, bound - b);
    RedSmall(x + bound - b);
  }

  lemma EqualMeaning(x: Fe, y: Fe)
    ensures IsEqual(x, y) == if x == y then 1 else 0
  {
    if x >= y {
      RedSmall(x - y);
    } else {
      QuotientUnique(x - y, -1, x - y + P);
    }
  }

  /** A 64-bit field element equal to a difference of 64-bit numbers is that difference, which did not go negative. */
  lemma DifferenceMeaning(post: Fe, pre: nat, out: nat)
    requires post < TWO_64 && pre < TWO_64 && out < TWO_64
    ensures post == Red(pre - out) <==> out <= pre && post == pre - out
  {
    if pre < out {
      QuotientUnique(pre - out, -1, pre - out + P);
      assert Red(pre - out) == pre - out + P > TWO_64;
    } else {
      RedSmall(pre - out);
    }
  }

  lemma ProductFits(x: nat, y: nat)
    requires x <= TWO_64 && y <= TWO_64
    ensures x * y <= TWO_128 && Red(x * y) == x * y
  {
    Product128(x, y);
    RedSmall(x * y);
  }

  lemma Product128(x: nat, y: nat)
    requires x <= TWO_64 && y <= TWO_64
    ensures x * y <= TWO_128
  {
    assert x * y <= x * TWO_64 <= TWO_64 * TWO_64;
  }
}
