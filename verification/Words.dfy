/** Numbers, optional values and call results shared by every component. */
module Words {

  datatype Option<+T> = None | Some(value: T)

  datatype Result<+T, +E> = Ok(value: T) | Err(error: E) {
    predicate IsFailure() {
      Err?
    }

    function PropagateFailure<U>(): Result<U, E>
      requires Err?
    {
      Err(error)
    }

    function Extract(): T
      requires Ok?
    {
      value
    }
  }

  /**
   * A call that follows `spec` from state `before`: on success the new state and value, on an error nothing changed.
   */
  ghost predicate Outcome<S, T, E>(spec: Result<(S, T), E>, before: S, r: Result<T, E>, after: S) {
    match spec
    case Ok(p) => r == Ok(p.1) && after == p.0
    case Err(e) => r == Err(e) && after == before
  }

  /** The same for code that runs inside a call: after an error the state is whatever was reached. */
  ghost predicate Partial<S, T, E>(spec: Result<(S, T), E>, r: Result<T, E>, after: S) {
    match spec
    case Ok(p) => r == Ok(p.1) && after == p.0
    case Err(e) => r == Err(e)
  }

  newtype byte = x: int | 0 <= x < 256

  type Bytes = seq<byte>

  /** The two-input hash of every tree. It is a parameter wherever it occurs: nothing is assumed about it. */
  type Hash2 = (nat, nat) -> nat

  const TWO_32: nat := 0x1_0000_0000
  const TWO_64: nat := 0x1_0000_0000_0000_0000
  const TWO_127: nat := 0x8000_0000_0000_0000_0000_0000_0000_0000
  const TWO_128: nat := 0x1_0000_0000_0000_0000_0000_0000_0000_0000

  predicate IsI128(v: int) {
    v + TWO_127 >= 0 && v < TWO_127
  }

  function Or0(v: Option<nat>): nat {
    match v
    case Some(x) => x
    case None => 0
  }

  function Get<K, V>(m: map<K, V>, k: K): Option<V> {
    if k in m then Some(m[k]) else None
  }

  function Pow2(n: nat): (r: nat)
    ensures r > 0
  {
    if n == 0 then 1 else 2 * Pow2(n - 1)
  }

  lemma {:induction false} Pow2Monotone(m: nat, n: nat)
    requires m < n
    ensures 2 * Pow2(m) <= Pow2(n)
    decreases n
  {
    if m < n - 1 {
      Pow2Monotone(m, n - 1);
    }
  }

  lemma MulMonotone(x: nat, y: nat, z: nat)
    ensures x <= y ==> x * z <= y * z
    ensures (x + 1) * z == x * z + z
  {}

  lemma SplitAt<T>(s: seq<T>, i: nat)
    requires i < |s|
    ensures s == s[..i] + [s[i]] + s[i + 1..]
  {}

  /** The last min(|s|, n) entries of s. */
  function LastN<T>(s: seq<T>, n: nat): seq<T> {
    if |s| <= n then s else s[|s| - n..]
  }

  /** What the window holds: the entries that fewer than n others follow. */
  lemma InLastN<T>(s: seq<T>, n: nat, x: T)
    ensures x in LastN(s, n) <==> exists k :: 0 <= k < |s| <= k + n && s[k] == x
  {
    var w := LastN(s, n);
    var from := |s| - |w|;
    if k :| 0 <= k < |s| <= k + n && s[k] == x {
      assert w[k - from] == x;
    }
    if x in w {
      var i :| 0 <= i < |w| && w[i] == x;
      assert s[from + i] == x;
    }
  }

  /** Pushing on the newest end and popping the oldest entry keeps the window of the longer history. */
  lemma LastNPush<T>(s: seq<T>, x: T, n: nat)
    requires n > 0
    ensures var w := LastN(s, n) + [x];
            LastN(s + [x], n) == if |w| > n then w[1..] else w
  {
    var w := LastN(s, n) + [x];
    if |s| > n {
      assert LastN(s + [x], n) == (s + [x])[|s| + 1 - n..];
      assert w[1..] == (s + [x])[|s| + 1 - n..];
    } else if |s| == n {
      assert w == s + [x];
    }
  }
}
