/** Negating a curve point: 256-bit subtraction from the base-field modulus, byte by byte with a borrow. */
module G1Negation {
  import opened Words
  import opened BigEndian

  const Q: nat := 0x30644e72e131a029b85045b68181585d97816a916871ca8d3c208c16d87cfd47

  const Q0: Bytes := [0x30, 0x64, 0x4e, 0x72, 0xe1, 0x31, 0xa0, 0x29]
  const Q1: Bytes := [0xb8, 0x50, 0x45, 0xb6, 0x81, 0x81, 0x58, 0x5d]
  const Q2: Bytes := [0x97, 0x81, 0x6a, 0x91, 0x68, 0x71, 0xca, 0x8d]
  const Q3: Bytes := [0x3c, 0x20, 0x8c, 0x16, 0xd8, 0x7c, 0xfd, 0x47]
  const Q_BYTES: Bytes := Q0 + Q1 + Q2 + Q3

  lemma {:induction false} Concat(s: Bytes, t: Bytes)
    ensures FromBe(s + t) == FromBe(s) * Pow256(|t|) + FromBe(t)
    decreases |t|
  {
    if |t| == 0 {
      assert s + t == s;
    } else {
      var n := |t| - 1;
      Concat(s, t[..n]);
      assert (s + t)[..|s| + n] == s + t[..n];
      MulShift(FromBe(s), Pow256(n));
    }
  }

  lemma EightBytes(b: Bytes)
    requires |b| == 8
    ensures FromBe(b)
            == 0x1_0000_0000 * (0x100_0000 * b[0] as nat + 0x1_0000 * b[1] as nat + 0x100 * b[2] as nat + b[3] as nat)
                         + 0x100_0000 * b[4] as nat + 0x1_0000 * b[5] as nat + 0x100 * b[6] as nat + b[7] as nat
  {
    FourBytes(b[..4]);
    FourBytes(b[4..]);
    Concat(b[..4], b[4..]);
    assert b == b[..4] + b[4..];
    assert Pow256(4) == 0x1_0000_0000;
  }

  lemma FourBytes(b: Bytes)
    requires |b| == 4
    ensures FromBe(b) == 0x100_0000 * b[0] as nat + 0x1_0000 * b[1] as nat + 0x100 * b[2] as nat + b[3] as nat
  {
    assert b[..3][..2] == b[..2] && b[..2][..1] == b[..1];
    assert FromBe(b[..1]) == b[0] as nat;
    assert FromBe(b[..2]) == 256 * FromBe(b[..1]) + b[1] as nat;
    assert FromBe(b[..3]) == 256 * FromBe(b[..2]) + b[2] as nat;
  }

  /** The byte table is the base-field modulus. */
  lemma QBytesValue()
    ensures |Q_BYTES| == 32 && FromBe(Q_BYTES) == Q
  {
    EightBytes(Q0);
    EightBytes(Q1);
    EightBytes(Q2);
    EightBytes(Q3);
    assert Pow256(8) == TWO_64;
    Concat(Q0, Q1);
    Concat(Q0 + Q1, Q2);
    Concat(Q0 + Q1 + Q2, Q3);
  }

  lemma MulShift(x: nat, p: nat)
    ensures 256 * (x * p) == x * (256 * p)
  {}

  /** q - y modulo 2^256. */
  function NegY(y: nat): nat
    requires y < TWO_256
  {
    if y <= Q then Q - y else Q + TWO_256 - y
  }

  /** One digit of the subtraction, given the digits below it. */
  lemma BorrowStep(d: byte, q: byte, y: byte, ds: Bytes, qs: Bytes, ys: Bytes, borrowIn: int, borrowOut: int)
    requires |ds| == |qs| == |ys|
    requires FromBe(ds) == FromBe(qs) - FromBe(ys) + borrowIn * Pow256(|qs|)
    requires d as int == q as int - y as int - borrowIn + 256 * borrowOut
    ensures FromBe([d] + ds) == FromBe([q] + qs) - FromBe([y] + ys) + borrowOut * Pow256(|qs| + 1)
  {
    Concat([d], ds);
    Concat([q], qs);
    Concat([y], ys);
    assert FromBe([d]) == d as nat && FromBe([q]) == q as nat && FromBe([y]) == y as nat;
    DigitStep(d as int, q as int, y as int, borrowIn, borrowOut, Pow256(|qs|));
  }

  lemma DigitStep(d: int, q: int, y: int, borrowIn: int, borrowOut: int, p: nat)
    requires d == q - y - borrowIn + 256 * borrowOut
    ensures d * p + borrowIn * p == q * p - y * p + borrowOut * (256 * p)
  {}

  /** The same for the digit at position i of the two operands. */
  lemma DigitWritten(q: Bytes, y: Bytes, i: nat, digit: byte, low: Bytes, borrowIn: int, borrowOut: int)
    requires |q| == |y| == 32 && i < 32 && |low| == 31 - i
    requires FromBe(low) == FromBe(q[i + 1..]) - FromBe(y[i + 1..]) + borrowIn * Pow256(31 - i)
    requires digit as int == q[i] as int - y[i] as int - borrowIn + 256 * borrowOut
    ensures FromBe([digit] + low) == FromBe(q[i..]) - FromBe(y[i..]) + borrowOut * Pow256(32 - i)
  {
    BorrowStep(digit, q[i], y[i], low, q[i + 1..], y[i + 1..], borrowIn, borrowOut);
    assert q[i..] == [q[i]] + q[i + 1..];
    assert y[i..] == [y[i]] + y[i + 1..];
  }

  /** What is left to borrow at the end says which operand is larger. */
  lemma FinalBorrow(r: Bytes, q: Bytes, y: Bytes, borrow: int)
    requires |r| == |q| == |y| == 32 && 0 <= borrow <= 1
    requires FromBe(r) == FromBe(q) - FromBe(y) + borrow * Pow256(32)
    ensures FromBe(r) == FromBe(q) - FromBe(y) + borrow * TWO_256
    ensures borrow == if FromBe(y) <= FromBe(q) then 0 else 1
  {
    Pow256Of32();
    FromBeBound(q);
    FromBeBound(y);
    FromBeBound(r);
  }

  /** The borrow loop: the difference modulo 2^256, with a final borrow exactly when y exceeds q. */
  method SubtractBytes(q: Bytes, y: Bytes) returns (yNeg: array<byte>, borrow: int)
    requires |q| == |y| == 32
    ensures fresh(yNeg) && yNeg.Length == 32
    ensures FromBe(yNeg[..]) == FromBe(q) - FromBe(y) + borrow * TWO_256
    ensures borrow == if FromBe(y) <= FromBe(q) then 0 else 1
  {
    yNeg := new byte[32](_ => 0);
    borrow := 0;
    for i := 32 downto 0
      invariant 0 <= borrow <= 1
      invariant FromBe(yNeg[i..]) == FromBe(q[i..]) - FromBe(y[i..]) + borrow * Pow256(32 - i)
    {
      var diff := q[i] as int - y[i] as int - borrow;
      ghost var low, borrowIn := yNeg[i + 1..], borrow;
      if diff < 0 {
        yNeg[i] := (diff + 256) as byte;
        borrow := 1;
      } else {
        yNeg[i] := diff as byte;
        borrow := 0;
      }
      assert yNeg[i + 1..] == low;
      DigitWritten(q, y, i, yNeg[i], low, borrowIn, borrow);
      assert yNeg[i..] == [yNeg[i]] + low;
    }
    assert yNeg[0..] == yNeg[..] && q[0..] == q && y[0..] == y;
    FinalBorrow(yNeg[..], q, y, borrow);
  }

  /** The point with its Y coordinate subtracted from q; all zeros, the point at infinity, stays. */
  function Negated(raw: Bytes): Bytes
    requires |raw| == 64
  {
    if forall i :: 0 <= i < 64 ==> raw[i] == 0 then raw
    else
      FromBeBound(raw[32..]); Pow256Of32();
      raw[..32] + Word32(NegY(FromBe(raw[32..])))
  }

  method G1Negate(raw: Bytes) returns (r: Bytes)
    requires |raw| == 64
    ensures r == Negated(raw)
  {
    var x, y := raw[..32], raw[32..];
    if forall i :: 0 <= i < 64 ==> raw[i] == 0 {
      return raw;
    }
    QBytesValue();
    FromBeBound(y);
    Pow256Of32();
    var yNeg, borrow := SubtractBytes(Q_BYTES, y);
    ToFromBe(yNeg[..]);
    r := x + yNeg[..];
  }

  /** The new coordinate is the canonical field negative exactly for 0 < y <= q. */
  lemma NegYIsFieldNegativeIff(y: nat)
    requires y < TWO_256
    ensures NegY(y) < Q && (y + NegY(y)) % Q == 0 <==> 0 < y <= Q
  {
    assert TWO_256 % Q != 0;
  }

  /** On every canonical point with 0 < y < q the result is q - y, and negating twice is the identity. */
  lemma NegationIsInvolution(raw: Bytes)
    requires |raw| == 64 && 0 < FromBe(raw[32..]) < Q
    ensures |Negated(raw)| == 64 && Negated(raw)[..32] == raw[..32]
    ensures FromBe(Negated(raw)[32..]) == Q - FromBe(raw[32..])
    ensures Negated(Negated(raw)) == raw
  {
    var y := FromBe(raw[32..]);
    NonZero(raw);
    var n := Negated(raw);
    assert n[..32] == raw[..32] && n[32..] == Word32(Q - y);
    Word32Value(Q - y);
    NonZero(n);
    ToFromBe(raw[32..]);
    assert Negated(n) == raw[..32] + raw[32..];
  }

  lemma NonZero(raw: Bytes)
    requires |raw| == 64 && FromBe(raw[32..]) > 0
    ensures !(forall i :: 0 <= i < 64 ==> raw[i] == 0)
  {
    if forall i :: 0 <= i < 64 ==> raw[i] == 0 {
      AllZero(raw[32..]);
    }
  }

  lemma {:induction false} AllZero(s: Bytes)
    requires forall i :: 0 <= i < |s| ==> s[i] == 0
    ensures FromBe(s) == 0
  {
    if |s| > 0 {
      AllZero(s[..|s| - 1]);
    }
  }
}
