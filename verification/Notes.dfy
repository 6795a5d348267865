/**
 * Notes, their commitments and nullifiers, how the verifier reads them, and what it means for the hashes to be binding.
 */
module Notes {
  import opened Words
  import opened Field

  /**
   * The wider hashes of the circuits, and the field element that the verifier reads a public input as. The ranges of
   * the hashes are unbounded so that binding can be stated as injectivity. Several numbers may be read as one element:
   * a verifier that reduces modulo the order does so, one that refuses what is not reduced does not.
   */
  datatype Hashes = Hashes(h1: nat -> nat, h3: (nat, nat, nat) -> nat, h4: (nat, nat, nat, nat) -> nat,
                           h7: (nat, nat, nat, nat, nat, nat, nat) -> nat, read: nat -> nat)

  /** The public inputs as the circuit gets them. */
  function Fields(hs: Hashes, inputs: seq<nat>): (r: seq<nat>)
    ensures |r| == |inputs| && forall i :: 0 <= i < |r| ==> r[i] == hs.read(inputs[i])
  {
    seq(|inputs|, i requires 0 <= i < |inputs| => hs.read(inputs[i]))
  }

  /** Numbers below the order of the field and outputs of the hashes are read as themselves. */
  ghost predicate Reads(hs: Hashes) {
    && (forall x: nat :: x < P ==> hs.read(x) == x)
    && (forall a, b, c :: hs.read(hs.h3(a, b, c)) == hs.h3(a, b, c))
    && (forall a, b, c, d :: hs.read(hs.h4(a, b, c, d)) == hs.h4(a, b, c, d))
    && (forall a, b, c, d, e, g, k :: hs.read(hs.h7(a, b, c, d, e, g, k)) == hs.h7(a, b, c, d, e, g, k))
  }

  datatype NoteData = NoteData(amount: nat, assetId: nat, blinding: nat, ownerPk: nat)

  function NoteCm(hs: Hashes, n: NoteData): nat {
    hs.h4(n.amount, n.assetId, n.blinding, n.ownerPk)
  }

  function Nullifier(hs: Hashes, ownerSk: nat, leafIndex: nat, cm: nat): nat {
    hs.h3(ownerSk, leafIndex, cm)
  }

  ghost predicate Injective1(f: nat -> nat) {
    forall a, a' :: f(a) == f(a') ==> a == a'
  }

  ghost predicate Injective3(f: (nat, nat, nat) -> nat) {
    forall a, b, c, a', b', c' :: f(a, b, c) == f(a', b', c') ==> a == a' && b == b' && c == c'
  }

  ghost predicate Injective4(f: (nat, nat, nat, nat) -> nat) {
    forall a, b, c, d, a', b', c', d' :: f(a, b, c, d) == f(a', b', c', d') ==> a == a' && b == b' && c == c' && d == d'
  }

  ghost predicate Injective7(f: (nat, nat, nat, nat, nat, nat, nat) -> nat) {
    forall a, b, c, d, e, g, k, a', b', c', d', e', g', k' ::
      f(a, b, c, d, e, g, k) == f(a', b', c', d', e', g', k')
      ==> a == a' && b == b' && c == c' && d == d' && e == e' && g == g' && k == k'
  }

  /** No two inputs of a hash collide, and no commitment is 0. */
  ghost predicate Binding(hs: Hashes) {
    && Injective1(hs.h1) && Injective3(hs.h3) && Injective4(hs.h4) && Injective7(hs.h7)
    && forall n :: NoteCm(hs, n) != 0
  }

  lemma OpeningIsUnique(hs: Hashes, n: NoteData, m: NoteData)
    requires Injective4(hs.h4) && NoteCm(hs, n) == NoteCm(hs, m)
    ensures n == m
  {
    assert hs.h4(n.amount, n.assetId, n.blinding, n.ownerPk) == hs.h4(m.amount, m.assetId, m.blinding, m.ownerPk);
  }

  /** Each output of the hash is read as itself, not as an absent node, and determines how its arguments are read. */
  ghost predicate Recovers(read: nat -> nat, h: (nat, nat) -> nat, left: nat -> nat, right: nat -> nat) {
    forall a, b :: read(h(a, b)) == h(a, b) != 0 && left(h(a, b)) == read(a) && right(h(a, b)) == read(b)
  }

  /** The tree hash is binding. */
  ghost predicate BindingTree(read: nat -> nat, h: (nat, nat) -> nat) {
    read(0) == 0 && exists left, right :: Recovers(read, h, left, right)
  }
}
