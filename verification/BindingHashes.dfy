/** That the hashes can be binding at all: what binding means for the tree hash, and hashes that are binding. */
module BindingHashes {
  import opened Words
  import opened Field
  import opened Notes
  import opened CoreState
  import opened Membership

  // ---- recovering the arguments is having no collision ---------------------------------------

  ghost predicate NoCollision(read: nat -> nat, h: Hash2) {
    forall a, b, c, d :: h(a, b) == h(c, d) ==> read(a) == read(c) && read(b) == read(d)
  }

  ghost predicate CanonicalOutputs(read: nat -> nat, h: Hash2) {
    forall a, b :: read(h(a, b)) == h(a, b) != 0
  }

  ghost function LeftOf(read: nat -> nat, h: Hash2, x: nat): nat {
    if exists c, d :: h(c, d) == x then var c, d :| h(c, d) == x; read(c) else 0
  }

  ghost function RightOf(read: nat -> nat, h: Hash2, x: nat): nat {
    if exists c, d :: h(c, d) == x then var c, d :| h(c, d) == x; read(d) else 0
  }

  lemma BindingHasNoCollision(read: nat -> nat, h: Hash2)
    requires BindingTree(read, h)
    ensures NoCollision(read, h) && CanonicalOutputs(read, h)
  {
    var left, right :| Recovers(read, h, left, right);
    forall a, b, c, d | h(a, b) == h(c, d)
      ensures read(a) == read(c) && read(b) == read(d)
    {
      assert left(h(a, b)) == read(a) && right(h(a, b)) == read(b);
      assert left(h(c, d)) == read(c) && right(h(c, d)) == read(d);
    }
  }

  predicate IsRecovered(read: nat -> nat, a: nat, b: nat, left: nat, right: nat) {
    left == read(a) && right == read(b)
  }

  lemma Recovered(read: nat -> nat, h: Hash2, a: nat, b: nat)
    requires NoCollision(read, h)
    ensures IsRecovered(read, a, b, LeftOf(read, h, h(a, b)), RightOf(read, h, h(a, b)))
  {}

  lemma ProjectionsRecover(read: nat -> nat, h: Hash2)
    requires CanonicalOutputs(read, h)
    requires forall a, b :: IsRecovered(read, a, b, LeftOf(read, h, h(a, b)), RightOf(read, h, h(a, b)))
    ensures exists left, right :: Recovers(read, h, left, right)
  {
    assert Recovers(read, h, x => LeftOf(read, h, x), x => RightOf(read, h, x));
  }

  lemma NoCollisionBinds(read: nat -> nat, h: Hash2)
    requires read(0) == 0 && CanonicalOutputs(read, h) && NoCollision(read, h)
    ensures BindingTree(read, h)
  {
    forall a, b
      ensures IsRecovered(read, a, b, LeftOf(read, h, h(a, b)), RightOf(read, h, h(a, b)))
    {
      Recovered(read, h, a, b);
    }
    ProjectionsRecover(read, h);
  }

  /** A tree hash is binding exactly when arguments that are read differently do not collide. */
  lemma BindingTreeIff(read: nat -> nat, h: Hash2)
    ensures BindingTree(read, h) <==> read(0) == 0 && CanonicalOutputs(read, h) && NoCollision(read, h)
  {
    if BindingTree(read, h) {
      BindingHasNoCollision(read, h);
    } else if read(0) == 0 && CanonicalOutputs(read, h) && NoCollision(read, h) {
      NoCollisionBinds(read, h);
    }
  }

  // ---- an injective pairing --------------------------------------------------------------------

  /** 2^a * (2b + 1) */
  function Pair(a: nat, b: nat): (r: nat)
    ensures r > 0
  {
    if a == 0 then 2 * b + 1 else 2 * Pair(a - 1, b)
  }

  function First(x: nat): nat {
    if x == 0 || x % 2 == 1 then 0 else 1 + First(x / 2)
  }

  function Second(x: nat): nat {
    if x == 0 || x % 2 == 1 then x / 2 else Second(x / 2)
  }

  lemma {:induction false} PairInverts(a: nat, b: nat)
    ensures First(Pair(a, b)) == a && Second(Pair(a, b)) == b
  {
    if a > 0 {
      PairInverts(a - 1, b);
    }
  }

  lemma PairInjective(a: nat, b: nat, c: nat, d: nat)
    requires Pair(a, b) == Pair(c, d)
    ensures a == c && b == d
  {
    PairInverts(a, b);
    PairInverts(c, d);
  }

  // ---- binding hashes ------------------------------------------------------------------------------

  function Even2(a: nat, b: nat): (r: nat)
    ensures r > 0 && r % 2 == 0
  {
    2 * Pair(a, b)
  }

  function Even3(a: nat, b: nat, c: nat): (r: nat)
    ensures r > 0 && r % 2 == 0
  {
    Even2(a, Pair(b, c))
  }

  function Even4(a: nat, b: nat, c: nat, d: nat): (r: nat)
    ensures r > 0 && r % 2 == 0
  {
    Even3(a, b, Pair(c, d))
  }

  function Even7(a: nat, b: nat, c: nat, d: nat, e: nat, g: nat, k: nat): (r: nat)
    ensures r > 0 && r % 2 == 0
  {
    Even4(a, b, c, Pair(d, Pair(e, Pair(g, k))))
  }

  function PairHashes(read: nat -> nat): Hashes {
    Hashes(a => 2 * a, Even3, Even4, Even7, read)
  }

  /** A tree hash that reads its arguments as the verifier reads its inputs. */
  function PairTree(read: nat -> nat): Hash2 {
    (a, b) => Even2(read(a), read(b))
  }

  ghost predicate KeepsEven(read: nat -> nat) {
    forall x: nat :: x < P || x % 2 == 0 ==> read(x) == x
  }

  lemma Even3Injective(a: nat, b: nat, c: nat, a': nat, b': nat, c': nat)
    requires Even3(a, b, c) == Even3(a', b', c')
    ensures a == a' && b == b' && c == c'
  {
    PairInjective(a, Pair(b, c), a', Pair(b', c'));
    PairInjective(b, c, b', c');
  }

  lemma Even4Injective(a: nat, b: nat, c: nat, d: nat, a': nat, b': nat, c': nat, d': nat)
    requires Even4(a, b, c, d) == Even4(a', b', c', d')
    ensures a == a' && b == b' && c == c' && d == d'
  {
    Even3Injective(a, b, Pair(c, d), a', b', Pair(c', d'));
    PairInjective(c, d, c', d');
  }

  lemma Even7Injective(a: nat, b: nat, c: nat, d: nat, e: nat, g: nat, k: nat,
                       a': nat, b': nat, c': nat, d': nat, e': nat, g': nat, k': nat)
    requires Even7(a, b, c, d, e, g, k) == Even7(a', b', c', d', e', g', k')
    ensures a == a' && b == b' && c == c' && d == d' && e == e' && g == g' && k == k'
  {
    var x, x' := Pair(d, Pair(e, Pair(g, k))), Pair(d', Pair(e', Pair(g', k')));
    Even4Injective(a, b, c, x, a', b', c', x');
    PairInjective(d, Pair(e, Pair(g, k)), d', Pair(e', Pair(g', k')));
    PairInjective(e, Pair(g, k), e', Pair(g', k'));
    PairInjective(g, k, g', k');
  }

  lemma PairHashesInjective(read: nat -> nat)
    ensures Binding(PairHashes(read))
  {
    forall a, b, c, a', b', c' | Even3(a, b, c) == Even3(a', b', c')
      ensures a == a' && b == b' && c == c'
    {
      Even3Injective(a, b, c, a', b', c');
    }
    forall a, b, c, d, a', b', c', d' | Even4(a, b, c, d) == Even4(a', b', c', d')
      ensures a == a' && b == b' && c == c' && d == d'
    {
      Even4Injective(a, b, c, d, a', b', c', d');
    }
    forall a, b, c, d, e, g, k, a', b', c', d', e', g', k' |
      Even7(a, b, c, d, e, g, k) == Even7(a', b', c', d', e', g', k')
      ensures a == a' && b == b' && c == c' && d == d' && e == e' && g == g' && k == k'
    {
      Even7Injective(a, b, c, d, e, g, k, a', b', c', d', e', g', k');
    }
  }

  lemma PairHashesRead(read: nat -> nat)
    requires KeepsEven(read)
    ensures Reads(PairHashes(read))
  {}

  lemma PairTreeBinds(read: nat -> nat)
    requires KeepsEven(read)
    ensures BindingTree(read, PairTree(read))
  {
    var h := PairTree(read);
    var left, right := (x: nat) => First(x / 2), (x: nat) => Second(x / 2);
    forall a, b
      ensures read(h(a, b)) == h(a, b) != 0 && left(h(a, b)) == read(a) && right(h(a, b)) == read(b)
    {
      PairInverts(read(a), read(b));
    }
    assert Recovers(read, h, left, right);
  }

  /** Everything assumed of hashes and readings holds of these, at every depth. */
  lemma PairHashesBind(read: nat -> nat, depth: nat, verify: (VkId, Proof, seq<nat>) -> Result<bool, VeilError>)
    requires KeepsEven(read)
    ensures BindingTrees(Config(PairTree(read), depth, 0, verify), PairHashes(read))
  {
    PairHashesInjective(read);
    PairHashesRead(read);
    PairTreeBinds(read);
    ZeroRootHoldsNoNote(Config(PairTree(read), depth, 0, verify), PairHashes(read));
  }

  function TakeSame(x: nat): nat {
    x
  }

  /** A reading that takes an odd number above the order for the even one before it. */
  function TakeEven(x: nat): nat {
    if x < P || x % 2 == 0 then x else x - 1
  }

  lemma ReadingsKeepEven()
    ensures KeepsEven(TakeSame) && KeepsEven(TakeEven)
  {}

  lemma TakeEvenHasAliases(x: nat)
    requires x >= P && x % 2 == 0
    ensures TakeEven(x + 1) == TakeEven(x)
  {}

  /** The assumptions leave open whether different numbers are read alike: they hold of both kinds of reading. */
  lemma AssumptionsAreSatisfiable(depth: nat, verify: (VkId, Proof, seq<nat>) -> Result<bool, VeilError>)
    ensures BindingTrees(Config(PairTree(TakeSame), depth, 0, verify), PairHashes(TakeSame))
    ensures BindingTrees(Config(PairTree(TakeEven), depth, 0, verify), PairHashes(TakeEven))
    ensures exists x: nat, y: nat :: x != y && TakeEven(x) == TakeEven(y)
  {
    ReadingsKeepEven();
    TakeEvenHasAliases(P + P);
    PairHashesBind(TakeSame, depth, verify);
    PairHashesBind(TakeEven, depth, verify);
  }
}
