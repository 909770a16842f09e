/**
 * `split_indices`: the positions of the declared feature names, partitioned
 * into window-history features, noise features and everything else.
 */
module FeatureSplit {
  import opened Common
  import opened Text

  const HistPrefix: string := "DL_hist_"
  const NoisePrefix: string := "noise_"

  predicate IsHistName(name: string) {
    StartsWith(name, HistPrefix)
  }

  predicate IsNoiseName(name: string) {
    StartsWith(name, NoisePrefix)
  }

  /** `[i for i, n in enumerate(names) if n.startswith(prefix)]`. */
  function Matching(names: seq<string>, prefix: string): (r: seq<nat>)
    ensures StrictlyIncreasing(r)
    ensures forall k :: 0 <= k < |r| ==> r[k] < |names|
    ensures forall i :: 0 <= i < |names| ==> (i in r <==> StartsWith(names[i], prefix))
    decreases |names|
  {
    if |names| == 0 then []
    else
      var last := |names| - 1;
      Matching(names[..last], prefix) + (if StartsWith(names[last], prefix) then [last] else [])
  }

  /** `[i for i in range(n) if i not in excluded]`. */
  function Excluding(n: nat, excluded: set<nat>): (r: seq<nat>)
    ensures StrictlyIncreasing(r)
    ensures forall k :: 0 <= k < |r| ==> r[k] < n
    ensures forall i: nat :: i in r <==> i < n && i !in excluded
    decreases n
  {
    if n == 0 then []
    else Excluding(n - 1, excluded) + (if n - 1 in excluded then [] else [n - 1])
  }

  datatype Split = Split(hist: seq<nat>, noise: seq<nat>, other: seq<nat>)

  /** Every position below `n` is in exactly one group, and each group is in ascending order. */
  ghost predicate Partitions(s: Split, n: nat) {
    && StrictlyIncreasing(s.hist) && StrictlyIncreasing(s.noise) && StrictlyIncreasing(s.other)
    && (forall k :: 0 <= k < |s.hist| ==> s.hist[k] < n)
    && (forall k :: 0 <= k < |s.noise| ==> s.noise[k] < n)
    && (forall k :: 0 <= k < |s.other| ==> s.other[k] < n)
    && (forall i :: 0 <= i < n ==> (i in s.hist) || (i in s.noise) || (i in s.other))
    && (forall i :: i in s.hist ==> i !in s.noise && i !in s.other)
    && (forall i :: i in s.noise ==> i !in s.other)
  }

  /**
   * `split_indices(names)`: the three lists partition `0..len(names)-1`, and a
   * position is history exactly when its name starts with `DL_hist_`, noise
   * exactly when it starts with `noise_`, and other exactly when neither.
   */
  function SplitIndices(names: seq<string>): (r: Split)
    ensures Partitions(r, |names|)
    ensures forall i :: 0 <= i < |names| ==> (i in r.hist <==> IsHistName(names[i]))
    ensures forall i :: 0 <= i < |names| ==> (i in r.noise <==> IsNoiseName(names[i]))
    ensures forall i :: 0 <= i < |names| ==> (i in r.other <==> !IsHistName(names[i]) && !IsNoiseName(names[i]))
  {
    var hist := Matching(names, HistPrefix);
    var noise := Matching(names, NoisePrefix);
    var excluded := set i | i in hist + noise;
    var other := Excluding(|names|, excluded);
    SplitFacts(names, hist, noise, excluded, other);
    Split(hist, noise, other)
  }

  /** A name cannot carry both prefixes: they differ in their first character. */
  lemma PrefixesExclusive(name: string)
    ensures !(IsHistName(name) && IsNoiseName(name))
  {
    if IsHistName(name) {
      assert name[0] == HistPrefix[0] == 'D';
    }
  }

  lemma SplitFacts(names: seq<string>, hist: seq<nat>, noise: seq<nat>, excluded: set<nat>, other: seq<nat>)
    requires hist == Matching(names, HistPrefix) && noise == Matching(names, NoisePrefix)
    requires excluded == set i | i in hist + noise
    requires other == Excluding(|names|, excluded)
    ensures Partitions(Split(hist, noise, other), |names|)
    ensures forall i :: 0 <= i < |names| ==> (i in other <==> !IsHistName(names[i]) && !IsNoiseName(names[i]))
  {
    forall i | 0 <= i < |names|
      ensures i in other <==> !IsHistName(names[i]) && !IsNoiseName(names[i])
    {
      assert i in excluded <==> i in hist || i in noise;
    }
    forall i | i in hist
      ensures i !in noise && i !in other
    {
      PrefixesExclusive(names[i]);
    }
    forall i | i in noise
      ensures i !in other
    {
      assert i in excluded;
    }
  }
}
