/** Failure-compatible wrappers and small sequence facts shared by every module. */
module Common {

  /** A value that may be missing: Python's `None` or an absent key. */
  datatype Option<+T> = None | Some(value: T) {

    /** The wrapped value, or `default` when there is none (`x if x is not None else default`). */
    function GetOr(default: T): T {
      if Some? then value else default
    }
  }

  /** The outcome of an operation that can raise: `Err` carries what was raised. */
  datatype Result<+T, +E> = Ok(value: T) | Err(error: E) {

    predicate IsFailure() {
      Err?
    }

    function PropagateFailure<U>(): Result<U, E>
      requires Err?
    {
      Err(error)
    }

    function Extract(): T
      requires Ok?
    {
      value
    }
  }

  /** No element of `s` occurs twice. */
  ghost predicate Distinct<T>(s: seq<T>) {
    forall i, j :: 0 <= i < j < |s| ==> s[i] != s[j]
  }

  predicate StrictlyIncreasing(s: seq<int>) {
    forall i, j :: 0 <= i < j < |s| ==> s[i] < s[j]
  }

  lemma StrictlyIncreasingIsDistinct(s: seq<int>)
    requires StrictlyIncreasing(s)
    ensures Distinct(s)
  {
  }

  /** A strictly increasing sequence is determined by its elements. */
  lemma {:induction false} StrictlyIncreasingUnique(a: seq<int>, b: seq<int>)
    requires StrictlyIncreasing(a) && StrictlyIncreasing(b)
    requires forall x :: x in a <==> x in b
    ensures a == b
    decreases |a|
  {
    assert |a| > 0 ==> a[0] in a;
    assert |b| > 0 ==> b[0] in b;
    if |a| > 0 && |b| > 0 {
      assert a[0] == b[0];
      assert a == [a[0]] + a[1..];
      assert b == [b[0]] + b[1..];
      forall x
        ensures x in a[1..] <==> x in b[1..]
      {
        if x in a[1..] {
          assert x in a && x > a[0];
        }
        if x in b[1..] {
          assert x in b && x > b[0];
        }
      }
      StrictlyIncreasingUnique(a[1..], b[1..]);
    }
  }

  /** A strictly increasing sequence holding exactly the integers in `[lo, hi)` is `lo, lo + 1, ..., hi - 1`. */
  lemma IntervalSeq(s: seq<int>, lo: int, hi: int)
    requires lo <= hi && StrictlyIncreasing(s)
    requires forall k :: 0 <= k < |s| ==> lo <= s[k] < hi
    requires forall x :: lo <= x < hi ==> x in s
    ensures s == seq(hi - lo, i => lo + i)
  {
    var t := seq(hi - lo, i => lo + i);
    forall x
      ensures x in s <==> x in t
    {
      if x in t {
        var i :| 0 <= i < |t| && t[i] == x;
        assert lo <= x < hi;
      }
      if x in s {
        var k :| 0 <= k < |s| && s[k] == x;
        assert t[x - lo] == x;
      }
    }
    StrictlyIncreasingUnique(s, t);
  }

  function MinInt(a: int, b: int): int {
    if a <= b then a else b
  }

  /** The set of elements of a sequence (Python's `set(xs)`). */
  function Elements<T>(s: seq<T>): set<T> {
    set x | x in s
  }

  /**
   * The keys of `keys` that `m` lacks, in the order of `keys` and with their
   * repetitions: `[k for k in keys if k not in m]`.
   */
  function Absent<V>(keys: seq<string>, m: map<string, V>): (r: seq<string>)
    ensures |r| <= |keys|
    decreases |keys|
  {
    if |keys| == 0 then []
    else Absent(keys[..|keys| - 1], m) + (if keys[|keys| - 1] in m then [] else [keys[|keys| - 1]])
  }

  /** A key is reported absent exactly when it is listed and missing from the map. */
  lemma {:induction false} AbsentMembers<V>(keys: seq<string>, m: map<string, V>)
    ensures forall k :: k in Absent(keys, m) <==> k in keys && k !in m
    ensures |Absent(keys, m)| == 0 <==> forall i :: 0 <= i < |keys| ==> keys[i] in m
    decreases |keys|
  {
    if |keys| > 0 {
      var init := keys[..|keys| - 1];
      AbsentMembers(init, m);
      assert keys == init + [keys[|keys| - 1]];
      assert forall i :: 0 <= i < |init| ==> init[i] == keys[i];
    }
  }

  /** Filtering distributes over concatenation, so the absent keys keep the order of `keys`. */
  lemma {:induction false} AbsentAppend<V>(a: seq<string>, b: seq<string>, m: map<string, V>)
    ensures Absent(a + b, m) == Absent(a, m) + Absent(b, m)
    decreases |b|
  {
    if |b| == 0 {
      assert a + b == a;
    } else {
      var b' := b[..|b| - 1];
      var last := b[|b| - 1];
      var ab := a + b;
      assert ab[..|ab| - 1] == a + b';
      assert ab[|ab| - 1] == last;
      AbsentAppend(a, b', m);
    }
  }
}
