/** The host language's stable sort, by an integer key. */
module Sorting {

  ghost predicate Sorted<T>(s: seq<T>, key: T -> int) {
    forall i, j :: 0 <= i < j < |s| ==> key(s[i]) <= key(s[j])
  }

  function InsertByKey<T>(s: seq<T>, x: T, key: T -> int): seq<T> {
    if s == [] || key(x) < key(s[0]) then [x] + s else [s[0]] + InsertByKey(s[1..], x, key)
  }

  function SortByKey<T>(s: seq<T>, key: T -> int): seq<T> {
    if s == [] then [] else InsertByKey(SortByKey(s[..|s| - 1], key), s[|s| - 1], key)
  }

  lemma {:induction false} InsertAddsOne<T>(s: seq<T>, x: T, key: T -> int)
    ensures multiset(InsertByKey(s, x, key)) == multiset(s) + multiset{x}
  {
    if s == [] || key(x) < key(s[0]) {
    } else {
      InsertAddsOne(s[1..], x, key);
      assert s == [s[0]] + s[1..];
    }
  }

  ghost predicate AtLeast<T>(s: seq<T>, bound: int, key: T -> int) {
    forall i :: 0 <= i < |s| ==> bound <= key(s[i])
  }

  lemma {:induction false} InsertAtLeast<T>(s: seq<T>, x: T, bound: int, key: T -> int)
    requires AtLeast(s, bound, key) && bound <= key(x)
    ensures AtLeast(InsertByKey(s, x, key), bound, key)
  {
    if s == [] || key(x) < key(s[0]) {
    } else {
      InsertAtLeast(s[1..], x, bound, key);
    }
  }

  lemma {:induction false} InsertKeepsSorted<T>(s: seq<T>, x: T, key: T -> int)
    requires Sorted(s, key)
    ensures Sorted(InsertByKey(s, x, key), key)
  {
    if s == [] || key(x) < key(s[0]) {
    } else {
      InsertKeepsSorted(s[1..], x, key);
      InsertAtLeast(s[1..], x, key(s[0]), key);
    }
  }

  lemma {:induction false} SortIsSorted<T>(s: seq<T>, key: T -> int)
    ensures Sorted(SortByKey(s, key), key)
  {
    if s != [] {
      SortIsSorted(s[..|s| - 1], key);
      InsertKeepsSorted(SortByKey(s[..|s| - 1], key), s[|s| - 1], key);
    }
  }

  lemma {:induction false} SortPermutes<T>(s: seq<T>, key: T -> int)
    ensures multiset(SortByKey(s, key)) == multiset(s)
  {
    if s != [] {
      var n := |s| - 1;
      SortPermutes(s[..n], key);
      InsertAddsOne(SortByKey(s[..n], key), s[n], key);
      assert s == s[..n] + [s[n]];
    }
  }

  /** The result is sorted and a permutation of the input. */
  lemma SortCorrect<T>(s: seq<T>, key: T -> int)
    ensures Sorted(SortByKey(s, key), key)
    ensures multiset(SortByKey(s, key)) == multiset(s)
  {
    SortIsSorted(s, key);
    SortPermutes(s, key);
  }
}
