/** The verification-key byte layout: the converter that prints it and the verifier that parses it. */
module VkBytes {
  import opened Words
  import opened BigEndian

  type G1 = b: Bytes | |b| == 64 witness seq(64, _ => 0)
  type G2 = b: Bytes | |b| == 128 witness seq(128, _ => 0)

  datatype Vk = Vk(alpha: G1, beta: G2, gamma: G2, delta: G2, ic: seq<G1>)

  /** MalformedVk is returned; Trap is the host aborting on 32-bit arithmetic overflow. */
  datatype VkError = MalformedVk | Trap

  // ---- the layout -----------------------------------------------------------------

  function Flatten(ic: seq<G1>): (b: Bytes)
    ensures |b| == 64 * |ic|
  {
    if ic == [] then [] else Flatten(ic[..|ic| - 1]) + ic[|ic| - 1]
  }

  function Header(vk: Vk): (b: Bytes)
    ensures |b| == 448
  {
    vk.alpha + vk.beta + vk.gamma + vk.delta
  }

  function Print(vk: Vk): (b: Bytes)
    ensures |b| == 452 + 64 * |vk.ic|
  {
    Header(vk) + ToBe(4, |vk.ic|) + Flatten(vk.ic)
  }

  lemma CountFits(n: nat)
    requires n < TWO_32
    ensures FromBe(ToBe(4, n)) == n
  {
    assert Pow256(4) == TWO_32;
    FromToBe(4, n);
  }

  lemma {:induction false} FlattenInjective(a: seq<G1>, b: seq<G1>)
    requires |a| == |b| && Flatten(a) == Flatten(b)
    ensures a == b
    decreases |a|
  {
    if a != [] {
      var n := |a| - 1;
      assert Flatten(a)[..64 * n] == Flatten(a[..n]) && Flatten(b)[..64 * n] == Flatten(b[..n]);
      assert Flatten(a)[64 * n..] == a[n] && Flatten(b)[64 * n..] == b[n];
      FlattenInjective(a[..n], b[..n]);
      assert a == a[..n] + [a[n]] && b == b[..n] + [b[n]];
    }
  }

  lemma HeaderInjective(v: Vk, w: Vk)
    requires Header(v) == Header(w)
    ensures v.alpha == w.alpha && v.beta == w.beta && v.gamma == w.gamma && v.delta == w.delta
  {
    assert v.alpha == Header(v)[..64] && w.alpha == Header(w)[..64];
    assert v.beta == Header(v)[64..192] && w.beta == Header(w)[64..192];
    assert v.gamma == Header(v)[192..320] && w.gamma == Header(w)[192..320];
    assert v.delta == Header(v)[320..448] && w.delta == Header(w)[320..448];
  }

  /** Bytes that start with a printed key name its length. */
  lemma PrintedCount(vk: Vk, bytes: Bytes)
    requires |vk.ic| < TWO_32 && Print(vk) <= bytes
    ensures |bytes| >= 452 + 64 * |vk.ic| && FromBe(bytes[448..452]) == |vk.ic|
  {
    assert Print(vk)[448..452] == ToBe(4, |vk.ic|);
    assert bytes[448..452] == Print(vk)[448..452];
    CountFits(|vk.ic|);
  }

  /** At most one key is printed at the start of any bytes: the layout is prefix-free and injective. */
  lemma PrintPrefixFree(v: Vk, w: Vk, bytes: Bytes)
    requires |v.ic| < TWO_32 && |w.ic| < TWO_32
    requires Print(v) <= bytes && Print(w) <= bytes
    ensures v == w
  {
    PrintedCount(v, bytes);
    PrintedCount(w, bytes);
    assert Print(v) == Print(w);
    assert Print(v)[..448] == Header(v) && Print(w)[..448] == Header(w);
    HeaderInjective(v, w);
    assert Print(v)[452..] == Flatten(v.ic) && Print(w)[452..] == Flatten(w.ic);
    FlattenInjective(v.ic, w.ic);
  }

  /** No strict prefix of a printed key starts with a printed key. */
  lemma StrictPrefixHoldsNoKey(v: Vk, k: nat, w: Vk)
    requires |v.ic| < TWO_32 && |w.ic| < TWO_32 && k < |Print(v)|
    ensures !(Print(w) <= Print(v)[..k])
  {
    if Print(w) <= Print(v)[..k] {
      PrintPrefixFree(v, w, Print(v));
    }
  }

  // ---- the verifier's parser ---------------------------------------------------------

  method ReadBytes64(bytes: Bytes, off: nat) returns (r: Result<G1, VkError>)
    ensures off + 64 > |bytes| ==> r == Err(MalformedVk)
    ensures off + 64 <= |bytes| ==> r == Ok(bytes[off..off + 64])
  {
    if off + 64 > |bytes| {
      return Err(MalformedVk);
    }
    r := Ok(bytes[off..off + 64]);
  }

  method ReadBytes128(bytes: Bytes, off: nat) returns (r: Result<G2, VkError>)
    ensures off + 128 > |bytes| ==> r == Err(MalformedVk)
    ensures off + 128 <= |bytes| ==> r == Ok(bytes[off..off + 128])
  {
    if off + 128 > |bytes| {
      return Err(MalformedVk);
    }
    r := Ok(bytes[off..off + 128]);
  }

  method ReadCount(bytes: Bytes, off: nat) returns (n: nat)
    requires off + 4 <= |bytes|
    ensures n == FromBe(bytes[off..off + 4]) < TWO_32
  {
    var b := bytes[off..off + 4];
    n := b[0] as nat * 0x100_0000 + b[1] as nat * 0x1_0000 + b[2] as nat * 0x100 + b[3] as nat;
    assert b[..3][..2] == b[..2] && b[..2][..1] == b[..1];
    assert FromBe(b[..1]) == b[0] as nat;
    assert FromBe(b[..2]) == 256 * FromBe(b[..1]) + b[1] as nat;
    assert FromBe(b[..3]) == 256 * FromBe(b[..2]) + b[2] as nat;
  }

  /** The points after the header, read one by one. */
  method ReadPoints(bytes: Bytes, start: nat, count: nat) returns (r: Result<seq<G1>, VkError>)
    ensures r.Ok? <==> count == 0 || start + 64 * count <= |bytes|
    ensures r.Ok? ==> |r.value| == count && (start <= |bytes| ==> Flatten(r.value) == bytes[start..start + 64 * count])
  {
    var off := start;
    var ic: seq<G1> := [];
    for i := 0 to count
      invariant |ic| == i && off == start + 64 * i
      invariant i > 0 ==> off <= |bytes|
      invariant start <= |bytes| ==> off <= |bytes| && Flatten(ic) == bytes[start..off]
    {
      var p := ReadBytes64(bytes, off);
      if p.Err? {
        return Err(p.error);
      }
      assert (ic + [p.value])[..i] == ic;
      ic := ic + [p.value];
      off := off + 64;
    }
    r := Ok(ic);
  }

  /** Parses exactly the bytes that start with a printed key, and returns that key. */
  method ParseVk(bytes: Bytes) returns (r: Result<Vk, VkError>)
    requires |bytes| < TWO_32
    ensures r.Ok? ==> |r.value.ic| < TWO_32 && Print(r.value) <= bytes
    ensures forall vk: Vk :: |vk.ic| < TWO_32 && Print(vk) <= bytes ==> r == Ok(vk)
    ensures forall vk: Vk, k: nat :: |vk.ic| < TWO_32 && k < |Print(vk)| && bytes == Print(vk)[..k] ==> r.Err?
  {
    r := ParseFields(bytes);
    forall vk: Vk | |vk.ic| < TWO_32 && Print(vk) <= bytes
      ensures r == Ok(vk)
    {
      PrintedCount(vk, bytes);
      if r.Ok? {
        PrintPrefixFree(vk, r.value, bytes);
      }
    }
    forall vk: Vk, k: nat | |vk.ic| < TWO_32 && k < |Print(vk)| && bytes == Print(vk)[..k]
      ensures r.Err?
    {
      if r.Ok? {
        StrictPrefixHoldsNoKey(vk, k, r.value);
      }
    }
  }

  method ParseFields(bytes: Bytes) returns (r: Result<Vk, VkError>)
    requires |bytes| < TWO_32
    ensures r.Ok? ==> |r.value.ic| < TWO_32 && Print(r.value) <= bytes
    ensures r.Err? ==> |bytes| < 452 || |bytes| < 452 + 64 * FromBe(bytes[448..452])
  {
    var len := |bytes|;
    if len < 64 + 128 * 3 + 4 {
      return Err(MalformedVk);
    }
    var off := 0;
    var alpha := ReadBytes64(bytes, off);
    off := off + 64;
    var beta := ReadBytes128(bytes, off);
    off := off + 128;
    var gamma := ReadBytes128(bytes, off);
    off := off + 128;
    var delta := ReadBytes128(bytes, off);
    off := off + 128;
    var nIc := ReadCount(bytes, off);
    off := off + 4;
    if off + nIc * 64 >= TWO_32 {
      return Err(Trap);
    }
    if off + nIc * 64 > len {
      return Err(MalformedVk);
    }
    var ic := ReadPoints(bytes, off, nIc);
    var vk := Vk(alpha.value, beta.value, gamma.value, delta.value, ic.value);
    FieldsPrint(bytes, vk);
    r := Ok(vk);
  }

  lemma FieldsPrint(bytes: Bytes, vk: Vk)
    requires |bytes| >= 452 + 64 * |vk.ic| && FromBe(bytes[448..452]) == |vk.ic|
    requires vk.alpha == bytes[..64] && vk.beta == bytes[64..192]
    requires vk.gamma == bytes[192..320] && vk.delta == bytes[320..448]
    requires Flatten(vk.ic) == bytes[452..452 + 64 * |vk.ic|]
    ensures Print(vk) <= bytes
  {
    ToFromBe(bytes[448..452]);
    assert Header(vk) == bytes[..448];
    assert Print(vk) == bytes[..452 + 64 * |vk.ic|];
  }

  // ---- the converter -------------------------------------------------------------------

  /** A projective G1 point of the prover's JSON; z is kept as the string the converter compares. */
  datatype G1Json = G1Json(x: nat, y: nat, z: string)

  /** A projective G2 point; the pairs are listed as in the JSON, imaginary part second. */
  datatype G2Json = G2Json(x: (nat, nat), y: (nat, nat), z: (string, string))

  datatype VkJson = VkJson(nPublic: nat, alpha: G1Json, beta: G2Json, gamma: G2Json, delta: G2Json, ic: seq<G1Json>)

  predicate G1Convertible(v: G1Json) {
    v.z == "1" && v.x < TWO_256 && v.y < TWO_256
  }

  predicate G2Convertible(v: G2Json) {
    v.z == ("1", "0") && v.x.0 < TWO_256 && v.x.1 < TWO_256 && v.y.0 < TWO_256 && v.y.1 < TWO_256
  }

  ghost predicate IsG1Of(b: G1, v: G1Json) {
    FromBe(b[..32]) == v.x && FromBe(b[32..]) == v.y
  }

  ghost predicate IsG2Of(b: G2, v: G2Json) {
    && FromBe(b[..32]) == v.x.1 && FromBe(b[32..64]) == v.x.0
    && FromBe(b[64..96]) == v.y.1 && FromBe(b[96..]) == v.y.0
  }

  /** A slice copy into the buffer. */
  method CopyInto(out: array<byte>, at: nat, src: Bytes)
    requires at + |src| <= out.Length
    modifies out
    ensures forall i :: 0 <= i < |src| ==> out[at + i] == src[i]
    ensures forall i :: 0 <= i < out.Length && (i < at || i >= at + |src|) ==> out[i] == old(out[i])
  {
    forall i | 0 <= i < |src| {
      out[at + i] := src[i];
    }
  }

  lemma Halves(b: Bytes, x: Bytes32, y: Bytes32)
    requires |b| == 64 && forall i :: 0 <= i < 32 ==> b[i] == x[i] && b[32 + i] == y[i]
    ensures b[..32] == x && b[32..] == y && b == x + y
  {}

  lemma Quarters(b: Bytes, x1: Bytes32, x0: Bytes32, y1: Bytes32, y0: Bytes32)
    requires |b| == 128
    requires forall i :: 0 <= i < 32 ==> b[i] == x1[i] && b[32 + i] == x0[i] && b[64 + i] == y1[i] && b[96 + i] == y0[i]
    ensures b[..32] == x1 && b[32..64] == x0 && b[64..96] == y1 && b[96..] == y0
  {}

  /** The coordinates, first x then y, can be read back from the bytes; None is the converter's panic. */
  method G1ToBytes(v: G1Json) returns (r: Option<G1>)
    ensures r.Some? <==> G1Convertible(v)
    ensures r.Some? ==> r.value == Word32(v.x) + Word32(v.y)
                        && FromBe(r.value[..32]) == v.x && FromBe(r.value[32..]) == v.y
  {
    if !G1Convertible(v) {
      return None;
    }
    var out := new byte[64](_ => 0);
    CopyInto(out, 0, Word32(v.x));
    CopyInto(out, 32, Word32(v.y));
    Halves(out[..], Word32(v.x), Word32(v.y));
    Word32Value(v.x);
    Word32Value(v.y);
    r := Some(out[..]);
  }

  /** The second entry of each JSON pair comes first. */
  method G2ToBytes(v: G2Json) returns (r: Option<G2>)
    ensures r.Some? <==> G2Convertible(v)
    ensures r.Some? ==> IsG2Of(r.value, v)
  {
    if !G2Convertible(v) {
      return None;
    }
    var out := new byte[128](_ => 0);
    CopyInto(out, 0, Word32(v.x.1));
    CopyInto(out, 32, Word32(v.x.0));
    CopyInto(out, 64, Word32(v.y.1));
    CopyInto(out, 96, Word32(v.y.0));
    Quarters(out[..], Word32(v.x.1), Word32(v.x.0), Word32(v.y.1), Word32(v.y.0));
    Word32Value(v.x.0);
    Word32Value(v.x.1);
    Word32Value(v.y.0);
    Word32Value(v.y.1);
    r := Some(out[..]);
  }

  /** The key holds the JSON's coordinates. */
  ghost predicate IsKeyOf(vk: Vk, json: VkJson) {
    && IsG1Of(vk.alpha, json.alpha) && IsG2Of(vk.beta, json.beta) && IsG2Of(vk.gamma, json.gamma)
    && IsG2Of(vk.delta, json.delta)
    && ArePointsOf(vk.ic, json.ic)
  }

  predicate PointsConvertible(ic: seq<G1Json>) {
    forall i :: 0 <= i < |ic| ==> G1Convertible(ic[i])
  }

  predicate HeaderConvertible(json: VkJson) {
    && G1Convertible(json.alpha) && G2Convertible(json.beta) && G2Convertible(json.gamma) && G2Convertible(json.delta)
  }

  ghost predicate ArePointsOf(points: seq<G1>, ic: seq<G1Json>) {
    |points| == |ic| && forall i :: 0 <= i < |ic| ==> IsG1Of(points[i], ic[i])
  }

  /** The four fixed points; the key has no other yet. */
  method ConvertHeader(json: VkJson) returns (r: Option<Vk>)
    ensures r.Some? <==> HeaderConvertible(json)
    ensures r.Some? ==> && IsG1Of(r.value.alpha, json.alpha) && IsG2Of(r.value.beta, json.beta)
                        && IsG2Of(r.value.gamma, json.gamma) && IsG2Of(r.value.delta, json.delta) && r.value.ic == []
  {
    var alpha := G1ToBytes(json.alpha);
    if alpha.None? {
      return None;
    }
    var beta := G2ToBytes(json.beta);
    if beta.None? {
      return None;
    }
    var gamma := G2ToBytes(json.gamma);
    if gamma.None? {
      return None;
    }
    var delta := G2ToBytes(json.delta);
    if delta.None? {
      return None;
    }
    r := Some(Vk(alpha.value, beta.value, gamma.value, delta.value, []));
  }

  /** The remaining points, appended to the output one by one. */
  method ConvertPoints(before: Bytes, ic: seq<G1Json>) returns (r: Option<Bytes>, ghost points: seq<G1>)
    ensures r.Some? <==> PointsConvertible(ic)
    ensures r.Some? ==> ArePointsOf(points, ic) && r.value == before + Flatten(points)
  {
    var out := before;
    points := [];
    for i := 0 to |ic|
      invariant |points| == i && out == before + Flatten(points)
      invariant forall j :: 0 <= j < i ==> G1Convertible(ic[j]) && IsG1Of(points[j], ic[j])
    {
      var p := G1ToBytes(ic[i]);
      if p.None? {
        return None, points;
      }
      out := out + p.value;
      assert (points + [p.value])[..i] == points;
      points := points + [p.value];
    }
    r := Some(out);
  }

  /** Writes the layout of the JSON's key; None is any of the converter's assertions failing. */
  method Convert(json: VkJson) returns (r: Option<Bytes>, ghost vk: Vk)
    requires json.nPublic < TWO_32
    ensures r.Some? <==> HeaderConvertible(json) && PointsConvertible(json.ic) && |json.ic| == json.nPublic + 1 < TWO_32
    ensures r.Some? ==> IsKeyOf(vk, json) && r.value == Print(vk)
  {
    vk := Vk(seq(64, _ => 0), seq(128, _ => 0), seq(128, _ => 0), seq(128, _ => 0), []);
    var nIc := |json.ic| % TWO_32;
    if json.nPublic + 1 >= TWO_32 || nIc != json.nPublic + 1 {
      return None, vk;
    }
    var header := ConvertHeader(json);
    if header.None? {
      return None, vk;
    }
    var out, points := ConvertPoints(Header(header.value) + ToBe(4, nIc), json.ic);
    if out.None? {
      return None, vk;
    }
    var expectedSize := 64 + 128 * 3 + 4 + nIc * 64;
    if |out.value| != expectedSize {
      return None, vk;
    }
    vk := header.value.(ic := points);
    r := out;
  }
}
