/** The wallet's largest-first note selection and its optimality over all choices of notes. */
module CoinSelection {
  import opened Words
  import opened Sorting

  datatype Note = Note(id: nat, assetId: nat, amount: nat, spent: bool, pending: bool)

  datatype Selection = Selection(notes: seq<Note>, total: nat, change: int)

  function Eligible(notes: seq<Note>, assetId: nat): seq<Note> {
    if notes == [] then []
    else
      var n := notes[|notes| - 1];
      Eligible(notes[..|notes| - 1], assetId) + (if n.assetId == assetId && !n.spent && !n.pending then [n] else [])
  }

  /** The notes that may be chosen are those of the asset that are neither spent nor pending. */
  predicate MayBeChosen(n: Note, assetId: nat) {
    n.assetId == assetId && !n.spent && !n.pending
  }

  /** A choice takes such notes only, none more often than the wallet has it. */
  predicate IsChoice(notes: seq<Note>, assetId: nat, pick: seq<Note>) {
    multiset(pick) <= multiset(notes) && forall n :: n in pick ==> MayBeChosen(n, assetId)
  }

  /** Each note that may be chosen is eligible as often as the wallet has it, and no other is. */
  lemma {:induction false} EligibleCount(notes: seq<Note>, assetId: nat, n: Note)
    ensures multiset(Eligible(notes, assetId))[n] == if MayBeChosen(n, assetId) then multiset(notes)[n] else 0
  {
    if notes != [] {
      var last := |notes| - 1;
      EligibleCount(notes[..last], assetId, n);
      assert notes == notes[..last] + [notes[last]];
    }
  }

  lemma ChoiceIsEligible(notes: seq<Note>, assetId: nat, pick: seq<Note>)
    ensures IsChoice(notes, assetId, pick) <==> multiset(pick) <= multiset(Eligible(notes, assetId))
  {
    forall n
      ensures multiset(Eligible(notes, assetId))[n] == if MayBeChosen(n, assetId) then multiset(notes)[n] else 0
    {
      EligibleCount(notes, assetId, n);
    }
    if multiset(pick) <= multiset(Eligible(notes, assetId)) {
      forall n | n in pick
        ensures MayBeChosen(n, assetId)
      {
        assert n in multiset(pick);
      }
    } else if IsChoice(notes, assetId, pick) {
      forall n
        ensures multiset(pick)[n] <= multiset(Eligible(notes, assetId))[n]
      {
        if multiset(pick)[n] > 0 {
          assert n in pick;
        }
      }
    }
  }

  function Sum(notes: seq<Note>): nat {
    if notes == [] then 0 else Sum(notes[..|notes| - 1]) + notes[|notes| - 1].amount
  }

  function BalanceForAsset(notes: seq<Note>, assetId: nat): nat {
    Sum(Eligible(notes, assetId))
  }

  function Without(s: seq<Note>, i: nat): seq<Note>
    requires i < |s|
  {
    s[..i] + s[i + 1..]
  }

  lemma {:induction false} SumAppend(s: seq<Note>, t: seq<Note>)
    ensures Sum(s + t) == Sum(s) + Sum(t)
  {
    if t == [] {
      assert s + t == s;
    } else {
      var n := |t| - 1;
      SumAppend(s, t[..n]);
      assert (s + t)[..|s + t| - 1] == s + t[..n];
    }
  }

  lemma SumSplit(s: seq<Note>, x: Note, t: seq<Note>)
    ensures Sum(s + [x] + t) == Sum(s + t) + x.amount
  {
    SumAppend(s + [x], t);
    SumAppend(s, t);
    assert (s + [x])[..|s|] == s;
  }

  lemma SumWithout(s: seq<Note>, i: nat)
    requires i < |s|
    ensures Sum(s) == Sum(Without(s, i)) + s[i].amount
  {
    SplitAt(s, i);
    SumSplit(s[..i], s[i], s[i + 1..]);
  }

  lemma MultisetWithout(s: seq<Note>, i: nat)
    requires i < |s|
    ensures multiset(s) == multiset(Without(s, i)) + multiset{s[i]}
  {
    SplitAt(s, i);
  }

  /** Rearranging notes keeps their sum. */
  lemma {:induction false} SumOfPermutation(s: seq<Note>, t: seq<Note>)
    requires multiset(s) == multiset(t)
    ensures Sum(s) == Sum(t)
    decreases |s|
  {
    if s == [] {
      assert |multiset(t)| == 0;
    } else {
      var n := |s| - 1;
      assert s == s[..n] + [s[n]];
      assert s[n] in multiset(t);
      var i :| 0 <= i < |t| && t[i] == s[n];
      SumWithout(t, i);
      MultisetWithout(t, i);
      assert multiset(s[..n]) == multiset(s) - multiset{s[n]};
      assert multiset(Without(t, i)) == multiset(t) - multiset{s[n]};
      SumOfPermutation(s[..n], Without(t, i));
    }
  }

  ghost predicate Descending(c: seq<Note>) {
    forall i, j :: 0 <= i < j < |c| ==> c[i].amount >= c[j].amount
  }

  lemma PrefixSum(c: seq<Note>, k: nat)
    requires k < |c|
    ensures Sum(c[..k + 1]) == Sum(c[..k]) + c[k].amount
  {
    assert c[..k + 1][..k] == c[..k];
  }

  lemma TakeOfTake(c: seq<Note>, n: nat, k: nat)
    requires k <= n <= |c|
    ensures c[..n][..k] == c[..k]
  {}

  /** Any choice among descending notes sums to at most the prefix of the same length. */
  lemma {:induction false} PrefixIsLargest(c: seq<Note>, pick: seq<Note>)
    requires Descending(c)
    requires multiset(pick) <= multiset(c)
    ensures |pick| <= |c| && Sum(pick) <= Sum(c[..|pick|])
    decreases |c|, 1
  {
    if pick != [] {
      assert pick[0] in multiset(c);
      var n := |c| - 1;
      assert c == c[..n] + [c[n]];
      assert multiset(c[..n]) == multiset(c) - multiset{c[n]};
      if c[n] in pick {
        var i :| 0 <= i < |pick| && pick[i] == c[n];
        ChosenLeast(c, pick, i);
      } else {
        assert multiset(pick) <= multiset(c[..n]);
        PrefixIsLargest(c[..n], pick);
        TakeOfTake(c, n, |pick|);
      }
    }
  }

  lemma RestIsAmongOthers(all: multiset<Note>, pick: seq<Note>, i: nat)
    requires i < |pick| && multiset(pick) <= all
    ensures multiset(Without(pick, i)) <= all - multiset{pick[i]}
  {
    MultisetWithout(pick, i);
    assert multiset(Without(pick, i)) == multiset(pick) - multiset{pick[i]};
  }

  /** When the least note is chosen, the rest of the choice is among the others. */
  lemma {:induction false} ChosenLeast(c: seq<Note>, pick: seq<Note>, i: nat)
    requires Descending(c) && c != []
    requires multiset(pick) <= multiset(c)
    requires multiset(c[..|c| - 1]) == multiset(c) - multiset{c[|c| - 1]}
    requires i < |pick| && pick[i] == c[|c| - 1]
    ensures |pick| <= |c| && Sum(pick) <= Sum(c[..|pick|])
    decreases |c|, 0
  {
    var n, rest, k := |c| - 1, Without(pick, i), |pick| - 1;
    RestIsAmongOthers(multiset(c), pick, i);
    PrefixIsLargest(c[..n], rest);
    TakeOfTake(c, n, k);
    assert Sum(rest) <= Sum(c[..k]);
    SumWithout(pick, i);
    PrefixSum(c, k);
  }

  lemma {:induction false} PrefixSumMonotone(c: seq<Note>, j: nat, k: nat)
    requires j <= k <= |c|
    ensures Sum(c[..j]) <= Sum(c[..k])
    decreases k
  {
    if j < k {
      PrefixSumMonotone(c, j, k - 1);
      assert c[..k][..k - 1] == c[..k - 1];
    }
  }

  function ByDescendingAmount(n: Note): int {
    -(n.amount as int)
  }

  /** The candidates in the order the selection visits them. */
  function Candidates(notes: seq<Note>, assetId: nat): seq<Note> {
    SortByKey(Eligible(notes, assetId), ByDescendingAmount)
  }

  lemma CandidatesDescend(notes: seq<Note>, assetId: nat)
    ensures Descending(Candidates(notes, assetId))
    ensures multiset(Candidates(notes, assetId)) == multiset(Eligible(notes, assetId))
    ensures Sum(Candidates(notes, assetId)) == BalanceForAsset(notes, assetId)
  {
    var c := Candidates(notes, assetId);
    SortCorrect(Eligible(notes, assetId), ByDescendingAmount);
    forall i, j | 0 <= i < j < |c|
      ensures c[i].amount >= c[j].amount
    {
      assert ByDescendingAmount(c[i]) <= ByDescendingAmount(c[j]);
    }
    SumOfPermutation(c, Eligible(notes, assetId));
  }

  lemma ShortPickFallsShort(c: seq<Note>, k: nat, target: int, pick: seq<Note>)
    requires k <= |c| && |pick| <= |c| && Sum(pick) <= Sum(c[..|pick|])
    requires k > 0 ==> Sum(c[..k - 1]) < target
    ensures |pick| < k ==> Sum(pick) < target
  {
    if |pick| < k {
      PrefixSumMonotone(c, |pick|, k - 1);
    }
  }

  /** No choice that reaches the target has fewer notes, and none of as many notes sums to more. */
  ghost predicate IsBestChoice(notes: seq<Note>, assetId: nat, target: int, chosen: seq<Note>) {
    && IsChoice(notes, assetId, chosen)
    && (forall pick :: IsChoice(notes, assetId, pick) && Sum(pick) >= target ==> |pick| >= |chosen|)
    && (forall pick :: IsChoice(notes, assetId, pick) && |pick| == |chosen| ==> Sum(pick) <= Sum(chosen))
  }

  lemma PrefixIsPart(c: seq<Note>, k: nat)
    requires k <= |c|
    ensures multiset(c[..k]) <= multiset(c)
  {
    assert c == c[..k] + c[k..];
  }

  lemma PrefixIsBest(notes: seq<Note>, assetId: nat, target: int, k: nat)
    requires k <= |Candidates(notes, assetId)|
    requires k > 0 ==> Sum(Candidates(notes, assetId)[..k - 1]) < target
    ensures IsBestChoice(notes, assetId, target, Candidates(notes, assetId)[..k])
  {
    var c := Candidates(notes, assetId);
    CandidatesDescend(notes, assetId);
    PrefixIsPart(c, k);
    ChoiceIsEligible(notes, assetId, c[..k]);
    forall pick | IsChoice(notes, assetId, pick)
      ensures Sum(pick) >= target ==> |pick| >= k
      ensures |pick| == k ==> Sum(pick) <= Sum(c[..k])
    {
      ChoiceIsEligible(notes, assetId, pick);
      PrefixIsLargest(c, pick);
      ShortPickFallsShort(c, k, target, pick);
    }
  }

  /** The balance is the most that any choice sums to, and all that may be chosen sums to it. */
  lemma BalanceIsLargestChoice(notes: seq<Note>, assetId: nat)
    ensures forall pick :: IsChoice(notes, assetId, pick) ==> Sum(pick) <= BalanceForAsset(notes, assetId)
    ensures exists pick :: IsChoice(notes, assetId, pick) && Sum(pick) == BalanceForAsset(notes, assetId)
  {
    var c := Candidates(notes, assetId);
    CandidatesDescend(notes, assetId);
    ChoiceIsEligible(notes, assetId, c);
    assert c[..|c|] == c;
    forall pick | IsChoice(notes, assetId, pick)
      ensures Sum(pick) <= BalanceForAsset(notes, assetId)
    {
      ChoiceIsEligible(notes, assetId, pick);
      PrefixIsLargest(c, pick);
      PrefixSumMonotone(c, |pick|, |c|);
    }
  }

  /** A prefix at which the loop stops, having reached the target or the end, reaches it if the balance does. */
  lemma StoppedPrefix(notes: seq<Note>, assetId: nat, target: int, k: nat)
    requires k <= |Candidates(notes, assetId)|
    requires k == |Candidates(notes, assetId)| || Sum(Candidates(notes, assetId)[..k]) >= target
    ensures Sum(Candidates(notes, assetId)[..k]) < target <==> BalanceForAsset(notes, assetId) < target
  {
    var c := Candidates(notes, assetId);
    CandidatesDescend(notes, assetId);
    PrefixSumMonotone(c, k, |c|);
    assert c[..|c|] == c;
  }

  /** Some choice reaches the target. */
  ghost predicate CanReach(notes: seq<Note>, assetId: nat, target: int) {
    exists pick :: IsChoice(notes, assetId, pick) && Sum(pick) >= target
  }

  lemma CanReachIff(notes: seq<Note>, assetId: nat, target: int)
    ensures CanReach(notes, assetId, target) <==> BalanceForAsset(notes, assetId) >= target
  {
    BalanceIsLargestChoice(notes, assetId);
  }

  /**
   * Fails exactly when no choice reaches the target; otherwise selects a choice of the fewest notes that does, the
   * largest ones, and returns what they exceed the target by as change.
   */
  method SelectInputs(notes: seq<Note>, assetId: nat, target: int) returns (r: Option<Selection>)
    ensures r.None? <==> !CanReach(notes, assetId, target)
    ensures r.None? <==> BalanceForAsset(notes, assetId) < target
    ensures r.Some? ==>
              && r.value.total == Sum(r.value.notes)
              && r.value.change == r.value.total - target >= 0
              && IsBestChoice(notes, assetId, target, r.value.notes)
  {
    var candidates := Candidates(notes, assetId);
    var selected: seq<Note> := [];
    var total := 0;
    var i := 0;
    while i < |candidates|
      invariant 0 <= i <= |candidates|
      invariant selected == candidates[..i] && total == Sum(selected)
      invariant i > 0 ==> Sum(candidates[..i - 1]) < target
    {
      if total >= target {
        break;
      }
      PrefixSum(candidates, i);
      selected := selected + [candidates[i]];
      total := total + candidates[i].amount;
      i := i + 1;
    }
    StoppedPrefix(notes, assetId, target, i);
    CanReachIff(notes, assetId, target);
    if total < target {
      return None;
    }
    PrefixIsBest(notes, assetId, target, i);
    r := Some(Selection(selected, total, total - target));
  }
}
