/**
 * `order_hist_positions`: the history positions sorted by the integer that
 * ends each name (`DL_hist_t_minus_6` sorts by 6), falling back to the given
 * order when some name does not end in an integer.
 */
module HistOrder {
  import opened Common
  import opened Text

  /** `int(name.split("_")[-1])`, `None` when that raises. */
  function SuffixKey(name: string): Option<int> {
    ParseInt(LastField(name))
  }

  /** A name ending in `_` and a decimal number sorts by that number, whatever precedes it. */
  lemma SuffixKeyOfNumberedName(stem: string, n: nat)
    ensures SuffixKey(stem + "_" + FormatNat(n)) == Some(n)
  {
    var digits := FormatNat(n);
    assert forall k :: 0 <= k < |digits| ==> digits[k] != '_' by {
      forall k | 0 <= k < |digits|
        ensures digits[k] != '_'
      {
        assert IsDigit(digits[k]);
      }
    }
    LastFieldAfterUnderscore(stem, digits);
    ParseIntFormatRoundTrip(n);
  }

  /** The sort key of position `p`; 0 where the source would have raised. */
  function KeyOf(names: seq<string>, p: nat): int {
    if p < |names| then SuffixKey(names[p]).GetOr(0) else 0
  }

  ghost predicate InRange(names: seq<string>, idx: seq<nat>) {
    forall k :: 0 <= k < |idx| ==> idx[k] < |names|
  }

  /** Every listed position names a feature whose suffix parses as an integer. */
  predicate AllKeysParse(names: seq<string>, idx: seq<nat>) {
    forall k :: 0 <= k < |idx| ==> idx[k] < |names| && SuffixKey(names[idx[k]]).Some?
  }

  ghost predicate SortedBy(key: nat -> int, s: seq<nat>) {
    forall i, j :: 0 <= i < j < |s| ==> key(s[i]) <= key(s[j])
  }

  /** Sorted by key, and positions with equal keys in ascending order. */
  ghost predicate StablySorted(key: nat -> int, s: seq<nat>) {
    forall i, j :: 0 <= i < j < |s| ==> key(s[i]) < key(s[j]) || (key(s[i]) == key(s[j]) && s[i] < s[j])
  }

  /** Insert `x` after every element whose key is at most its own. */
  function InsertByKey(key: nat -> int, s: seq<nat>, x: nat): (r: seq<nat>)
    ensures |r| == |s| + 1
    decreases |s|
  {
    if |s| == 0 then [x]
    else if key(x) < key(s[0]) then [x] + s
    else [s[0]] + InsertByKey(key, s[1..], x)
  }

  lemma {:induction false} InsertPermutes(key: nat -> int, s: seq<nat>, x: nat)
    ensures multiset(InsertByKey(key, s, x)) == multiset(s) + multiset{x}
    decreases |s|
  {
    if |s| > 0 && key(x) >= key(s[0]) {
      InsertPermutes(key, s[1..], x);
      assert s == [s[0]] + s[1..];
    }
  }

  lemma InsertElements(key: nat -> int, s: seq<nat>, x: nat)
    ensures forall y :: y in InsertByKey(key, s, x) <==> y in s || y == x
  {
    InsertPermutes(key, s, x);
    var r := InsertByKey(key, s, x);
    forall y
      ensures y in r <==> y in s || y == x
    {
      assert y in r <==> y in multiset(r);
      assert y in s <==> y in multiset(s);
    }
  }

  lemma {:induction false} InsertSorted(key: nat -> int, s: seq<nat>, x: nat)
    requires SortedBy(key, s)
    ensures SortedBy(key, InsertByKey(key, s, x))
    decreases |s|
  {
    if |s| > 0 && key(x) >= key(s[0]) {
      InsertSorted(key, s[1..], x);
      InsertElements(key, s[1..], x);
      var rest := InsertByKey(key, s[1..], x);
      assert forall k :: 0 <= k < |rest| ==> key(s[0]) <= key(rest[k]) by {
        forall k | 0 <= k < |rest|
          ensures key(s[0]) <= key(rest[k])
        {
          assert rest[k] in s[1..] || rest[k] == x;
        }
      }
    }
  }

  lemma {:induction false} InsertStable(key: nat -> int, s: seq<nat>, x: nat)
    requires StablySorted(key, s)
    requires forall k :: 0 <= k < |s| ==> s[k] < x
    ensures StablySorted(key, InsertByKey(key, s, x))
    decreases |s|
  {
    if |s| > 0 && key(x) >= key(s[0]) {
      InsertStable(key, s[1..], x);
      InsertElements(key, s[1..], x);
      var rest := InsertByKey(key, s[1..], x);
      forall k | 0 <= k < |rest|
        ensures key(s[0]) < key(rest[k]) || (key(s[0]) == key(rest[k]) && s[0] < rest[k])
      {
        assert rest[k] in s[1..] || rest[k] == x;
      }
    }
  }

  lemma InsertDistinct(key: nat -> int, s: seq<nat>, x: nat)
    requires Distinct(s) && x !in s
    ensures Distinct(InsertByKey(key, s, x))
  {
    InsertPermutes(key, s, x);
    var r := InsertByKey(key, s, x);
    forall i, j | 0 <= i < j < |r|
      ensures r[i] != r[j]
    {
      if r[i] == r[j] {
        var m := multiset(r);
        assert m == multiset(r[..i]) + multiset{r[i]} + multiset(r[i + 1..j]) + multiset{r[j]} + multiset(r[j + 1..]) by {
          assert r == r[..i] + [r[i]] + r[i + 1..j] + [r[j]] + r[j + 1..];
        }
        assert m[r[i]] >= 2;
        DistinctCount(s, r[i]);
      }
    }
  }

  /** In a sequence without repetitions every element occurs once. */
  lemma {:induction false} DistinctCount(s: seq<nat>, y: nat)
    requires Distinct(s)
    ensures multiset(s)[y] <= 1
    decreases |s|
  {
    if |s| > 0 {
      var init := s[..|s| - 1];
      DistinctCount(init, y);
      assert s == init + [s[|s| - 1]];
      if y == s[|s| - 1] {
        assert y !in init;
      }
    }
  }

  /** Insertion sort, taking the elements in their given order (so it is stable). */
  function SortByKey(key: nat -> int, s: seq<nat>): (r: seq<nat>)
    ensures |r| == |s|
    decreases |s|
  {
    if |s| == 0 then [] else InsertByKey(key, SortByKey(key, s[..|s| - 1]), s[|s| - 1])
  }

  lemma {:induction false} SortPermutes(key: nat -> int, s: seq<nat>)
    ensures multiset(SortByKey(key, s)) == multiset(s)
    decreases |s|
  {
    if |s| > 0 {
      var init := s[..|s| - 1];
      SortPermutes(key, init);
      InsertPermutes(key, SortByKey(key, init), s[|s| - 1]);
      assert s == init + [s[|s| - 1]];
    }
  }

  lemma {:induction false} SortDistinct(key: nat -> int, s: seq<nat>)
    ensures Distinct(s) ==> Distinct(SortByKey(key, s))
    decreases |s|
  {
    if |s| > 0 && Distinct(s) {
      var init := s[..|s| - 1];
      var sorted := SortByKey(key, init);
      SortDistinct(key, init);
      SortPermutes(key, init);
      assert s[|s| - 1] !in multiset(init);
      InsertDistinct(key, sorted, s[|s| - 1]);
    }
  }

  lemma {:induction false} SortSorted(key: nat -> int, s: seq<nat>)
    ensures SortedBy(key, SortByKey(key, s))
    decreases |s|
  {
    if |s| > 0 {
      SortSorted(key, s[..|s| - 1]);
      InsertSorted(key, SortByKey(key, s[..|s| - 1]), s[|s| - 1]);
    }
  }

  lemma {:induction false} SortStable(key: nat -> int, s: seq<nat>)
    requires StrictlyIncreasing(s)
    ensures StablySorted(key, SortByKey(key, s))
    decreases |s|
  {
    if |s| > 0 {
      var init := s[..|s| - 1];
      var sorted := SortByKey(key, init);
      SortStable(key, init);
      SortPermutes(key, init);
      forall k | 0 <= k < |sorted|
        ensures sorted[k] < s[|s| - 1]
      {
        assert sorted[k] in multiset(init);
      }
      InsertStable(key, sorted, s[|s| - 1]);
    }
  }

  /** An element whose key is at least every key of `s` goes at the end. */
  lemma {:induction false} InsertAtEnd(key: nat -> int, s: seq<nat>, x: nat)
    requires forall i :: 0 <= i < |s| ==> key(s[i]) <= key(x)
    ensures InsertByKey(key, s, x) == s + [x]
    decreases |s|
  {
    if |s| > 0 {
      InsertAtEnd(key, s[1..], x);
      assert s == [s[0]] + s[1..];
    }
  }

  /** Sorting a sequence that is already sorted by key leaves it unchanged. */
  lemma {:induction false} SortKeepsSorted(key: nat -> int, s: seq<nat>)
    requires SortedBy(key, s)
    ensures SortByKey(key, s) == s
    decreases |s|
  {
    if |s| > 0 {
      var init := s[..|s| - 1];
      SortKeepsSorted(key, init);
      InsertAtEnd(key, init, s[|s| - 1]);
      assert init + [s[|s| - 1]] == s;
    }
  }

  ghost predicate SortedByKey(names: seq<string>, s: seq<nat>) {
    forall i, j :: 0 <= i < j < |s| ==> KeyOf(names, s[i]) <= KeyOf(names, s[j])
  }

  ghost predicate StablySortedByKey(names: seq<string>, s: seq<nat>) {
    forall i, j :: 0 <= i < j < |s| ==>
      KeyOf(names, s[i]) < KeyOf(names, s[j]) || (KeyOf(names, s[i]) == KeyOf(names, s[j]) && s[i] < s[j])
  }

  /**
   * `order_hist_positions(names, hist_idx)`: a permutation of `hist_idx`; when
   * every suffix parses it is sorted by suffix value, ties in ascending
   * position when `hist_idx` ascends (Python's sort is stable); otherwise it is
   * `hist_idx` itself.
   */
  function OrderHistPositions(names: seq<string>, histIdx: seq<nat>): (r: seq<nat>)
    requires InRange(names, histIdx)
    ensures multiset(r) == multiset(histIdx)
    ensures forall y :: y in r <==> y in histIdx
    ensures Distinct(histIdx) ==> Distinct(r)
    ensures AllKeysParse(names, histIdx) ==> SortedByKey(names, r)
    ensures AllKeysParse(names, histIdx) && StrictlyIncreasing(histIdx) ==> StablySortedByKey(names, r)
    ensures !AllKeysParse(names, histIdx) ==> r == histIdx
  {
    if |histIdx| == 0 then []
    else if !AllKeysParse(names, histIdx) then histIdx
    else
      var key := (p: nat) => KeyOf(names, p);
      SortPermutes(key, histIdx);
      SortSorted(key, histIdx);
      assert forall y :: y in SortByKey(key, histIdx) <==> y in multiset(histIdx);
      SortDistinct(key, histIdx);
      if StrictlyIncreasing(histIdx) then SortStable(key, histIdx); SortByKey(key, histIdx)
      else SortByKey(key, histIdx)
  }

  /** Sorted by the suffix key as a function is sorted by suffix key. */
  lemma SortedByKeyOf(names: seq<string>, s: seq<nat>)
    requires SortedBy((p: nat) => KeyOf(names, p), s)
    ensures SortedByKey(names, s)
  {
  }

  /** Positions already in suffix order are returned as given. */
  lemma OrderKeepsOrdered(names: seq<string>, histIdx: seq<nat>)
    requires InRange(names, histIdx) && SortedByKey(names, histIdx)
    ensures OrderHistPositions(names, histIdx) == histIdx
  {
    if |histIdx| > 0 && AllKeysParse(names, histIdx) {
      var key := (p: nat) => KeyOf(names, p);
      assert SortedBy(key, histIdx);
      SortKeepsSorted(key, histIdx);
    }
  }

  /** Ordering is idempotent: ordering the ordered positions again changes nothing. */
  lemma OrderIdempotent(names: seq<string>, histIdx: seq<nat>)
    requires InRange(names, histIdx)
    ensures InRange(names, OrderHistPositions(names, histIdx))
    ensures OrderHistPositions(names, OrderHistPositions(names, histIdx)) == OrderHistPositions(names, histIdx)
  {
    var r := OrderHistPositions(names, histIdx);
    assert forall k :: 0 <= k < |r| ==> r[k] in histIdx;
    if AllKeysParse(names, histIdx) {
      assert forall k :: 0 <= k < |r| ==> r[k] in histIdx && exists j :: 0 <= j < |histIdx| && histIdx[j] == r[k];
      OrderKeepsOrdered(names, r);
    }
  }
}
