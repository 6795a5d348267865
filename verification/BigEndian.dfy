/** Big-endian byte strings and the numbers they stand for. */
module BigEndian {
  import opened Words

  const TWO_256: nat := 0x1_0000_0000_0000_0000_0000_0000_0000_0000_0000_0000_0000_0000_0000_0000_0000_0000

  type Bytes32 = b: Bytes | |b| == 32 witness seq(32, _ => 0)

  function FromBe(b: Bytes): nat {
    if |b| == 0 then 0 else 256 * FromBe(b[..|b| - 1]) + b[|b| - 1] as nat
  }

  /** The n low bytes of x. */
  function ToBe(n: nat, x: nat): (b: Bytes)
    ensures |b| == n
  {
    if n == 0 then [] else ToBe(n - 1, x / 256) + [(x % 256) as byte]
  }

  function Pow256(n: nat): (r: nat)
    ensures r > 0
  {
    if n == 0 then 1 else 256 * Pow256(n - 1)
  }

  lemma Pow256Of32()
    ensures Pow256(32) == TWO_256
  {
    assert Pow256(8) == 0x1_0000_0000_0000_0000;
    assert Pow256(16) == 0x1_0000_0000_0000_0000_0000_0000_0000_0000;
    assert Pow256(24) == 0x1_0000_0000_0000_0000_0000_0000_0000_0000_0000_0000_0000_0000;
  }

  lemma {:induction false} FromBeBound(b: Bytes)
    ensures FromBe(b) < Pow256(|b|)
  {
    if |b| > 0 {
      FromBeBound(b[..|b| - 1]);
    }
  }

  lemma {:induction false} FromToBe(n: nat, x: nat)
    requires x < Pow256(n)
    ensures FromBe(ToBe(n, x)) == x
  {
    if n > 0 {
      FromToBe(n - 1, x / 256);
      assert ToBe(n, x)[..n - 1] == ToBe(n - 1, x / 256);
    }
  }

  lemma {:induction false} ToFromBe(b: Bytes)
    ensures ToBe(|b|, FromBe(b)) == b
  {
    if |b| > 0 {
      var n := |b| - 1;
      ToFromBe(b[..n]);
      assert FromBe(b) / 256 == FromBe(b[..n]);
      assert b == b[..n] + [b[n]];
    }
  }

  lemma {:induction false} FromBeSplit(a: Bytes, b: Bytes)
    ensures FromBe(a + b) == FromBe(a) * Pow256(|b|) + FromBe(b)
  {
    if |b| == 0 {
      assert a + b == a;
    } else {
      var n := |b| - 1;
      FromBeSplit(a, b[..n]);
      assert (a + b)[..|a + b| - 1] == a + b[..n];
      Regroup(FromBe(a), Pow256(n));
    }
  }

  lemma Regroup(x: nat, p: nat)
    ensures 256 * (x * p) == x * (256 * p)
  {}

  /** The last eight bytes are the number modulo 2^64. */
  lemma LowBytes(b: Bytes32)
    ensures FromBe(b[24..]) == FromBe(b) % TWO_64
  {
    assert b == b[..24] + b[24..];
    FromBeSplit(b[..24], b[24..]);
    FromBeBound(b[24..]);
    assert Pow256(8) == 0x1_0000_0000_0000_0000;
    var q, r := FromBe(b[..24]), FromBe(b[24..]);
    assert FromBe(b) == q * 0x1_0000_0000_0000_0000 + r;
  }

  /** The order in which Rust compares byte arrays: the first differing byte decides. */
  predicate Less(a: Bytes, b: Bytes)
    requires |a| == |b|
  {
    exists k :: 0 <= k < |a| && a[..k] == b[..k] && a[k] < b[k]
  }

  lemma LessByLastByte(a: Bytes, b: Bytes)
    requires |a| == |b| > 0
    ensures var n := |a| - 1;
            Less(a, b) <==> Less(a[..n], b[..n]) || (a[..n] == b[..n] && a[n] < b[n])
  {
    var n := |a| - 1;
    forall k | 0 <= k < n
      ensures a[..n][..k] == a[..k] && b[..n][..k] == b[..k]
    {}
  }

  lemma FromBeInjective(a: Bytes, b: Bytes)
    requires |a| == |b| && FromBe(a) == FromBe(b)
    ensures a == b
  {
    ToFromBe(a);
    ToFromBe(b);
  }

  /** Comparing big-endian byte arrays is comparing the numbers. */
  lemma {:induction false} LessIsNumeric(a: Bytes, b: Bytes)
    requires |a| == |b|
    ensures Less(a, b) <==> FromBe(a) < FromBe(b)
    decreases |a|
  {
    if |a| > 0 {
      var n := |a| - 1;
      LessByLastByte(a, b);
      LessIsNumeric(a[..n], b[..n]);
      if FromBe(a[..n]) == FromBe(b[..n]) {
        FromBeInjective(a[..n], b[..n]);
      }
    }
  }

  /** The 32-byte encoding of a number that fits. */
  function Word32(x: nat): Bytes32 {
    ToBe(32, x)
  }

  lemma Word32Value(x: nat)
    requires x < TWO_256
    ensures FromBe(Word32(x)) == x
  {
    Pow256Of32();
    FromToBe(32, x);
  }
}
