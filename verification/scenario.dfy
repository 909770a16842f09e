/**
 * A worked example: a model over three history
 * features and one auxiliary feature with window 3 and the default
 * `window_mean` scaling, an input of 10, 20, 30 and 5, and an estimator that
 * answers 1.1 on the scaled vector. The window mean 20 is the base, the vector
 * is [0.5, 1.0, 1.5, 5.0] and the prediction is 1.1 * 20 = 22.0.
 */
module Scenario {
  import opened Common
  import opened Text
  import opened ModelMetadata
  import opened FeatureSplit
  import opened HistOrder
  import opened Scaling
  import opened Pipeline

  const Names: seq<string> := ["DL_hist_0", "DL_hist_1", "DL_hist_2", "aux"]

  const Md: Metadata := Metadata(None, None, Some(Names), None, Some(3), None, None, None)

  const Inputs: map<string, real> := map["DL_hist_0" := 10.0, "DL_hist_1" := 20.0, "DL_hist_2" := 30.0, "aux" := 5.0]

  const ScaledVector: seq<real> := [0.5, 1.0, 1.5, 5.0]

  /** Four names of which exactly the first three carry the history prefix. */
  ghost predicate ThreeHistoryThenOther(names: seq<string>) {
    && |names| == 4
    && IsHistName(names[0]) && IsHistName(names[1]) && IsHistName(names[2])
    && !IsHistName(names[3]) && !IsNoiseName(names[3])
  }

  lemma ScenarioNames()
    ensures ThreeHistoryThenOther(Names)
  {
  }

  /** There is no noise position. */
  lemma NoNoisePositions(names: seq<string>)
    requires ThreeHistoryThenOther(names)
    ensures SplitIndices(names).noise == []
  {
    var nz := Matching(names, NoisePrefix);
    PrefixesExclusive(names[0]);
    PrefixesExclusive(names[1]);
    PrefixesExclusive(names[2]);
    assert forall x :: x in nz <==> x in [];
    StrictlyIncreasingUnique(nz, []);
  }

  /** The history positions are 0, 1, 2. */
  lemma HistoryPositions(names: seq<string>)
    requires ThreeHistoryThenOther(names)
    ensures SplitIndices(names).hist == [0, 1, 2]
  {
    var h := Matching(names, HistPrefix);
    assert 0 in h && 1 in h && 2 in h;
    assert forall k :: 0 <= k < |h| ==> 0 <= h[k] < 3;
    IntervalSeq(h, 0, 3);
    assert h == seq(3, i => i);
  }

  /** A history name numbered `n` has sort key `n`. */
  lemma NumberedKey(names: seq<string>, i: nat, n: nat)
    requires i < |names| && names[i] == "DL_hist" + "_" + FormatNat(n)
    ensures KeyOf(names, i) == n
  {
    SuffixKeyOfNumberedName("DL_hist", n);
  }

  /** Positions whose keys are 0, 1, 2 are in key order. */
  lemma ThreeKeysSorted(key: nat -> int)
    requires key(0) == 0 && key(1) == 1 && key(2) == 2
    ensures SortedBy(key, [0, 1, 2])
  {
  }

  /** Ordering the history positions by suffix leaves 0, 1, 2 in place. */
  lemma ScenarioOrder(names: seq<string>, h: seq<nat>)
    requires |names| == 4 && h == [0, 1, 2] && SortedByKey(names, h)
    ensures OrderHistPositions(names, h) == h
  {
    assert InRange(names, h);
    OrderKeepsOrdered(names, h);
  }

  /** Names whose first three keys are 0, 1, 2 have those positions in key order. */
  lemma KeysInOrder(names: seq<string>)
    requires KeyOf(names, 0) == 0 && KeyOf(names, 1) == 1 && KeyOf(names, 2) == 2
    ensures SortedByKey(names, [0, 1, 2])
  {
    ThreeKeysSorted((p: nat) => KeyOf(names, p));
    SortedByKeyOf(names, [0, 1, 2]);
  }

  /** The scenario's history names are numbered 0, 1, 2, so their positions are in key order. */
  lemma ScenarioKeys()
    ensures SortedByKey(Names, [0, 1, 2])
  {
    assert Names[0] == "DL_hist" + "_" + FormatNat(0);
    assert Names[1] == "DL_hist" + "_" + FormatNat(1);
    assert Names[2] == "DL_hist" + "_" + FormatNat(2);
    NumberedKey(Names, 0, 0);
    NumberedKey(Names, 1, 1);
    NumberedKey(Names, 2, 2);
    KeysInOrder(Names);
  }

  /** The window is the history positions 0, 1, 2 in that order. */
  lemma ScenarioWindow()
    ensures SplitIndices(Names).hist == [0, 1, 2]
    ensures OrderHistPositions(Names, [0, 1, 2]) == [0, 1, 2]
  {
    ScenarioNames();
    HistoryPositions(Names);
    ScenarioKeys();
    ScenarioOrder(Names, [0, 1, 2]);
  }

  /** A window of three over history positions 0, 1, 2 that are already in suffix order. */
  lemma LayoutOfOrderedWindow(md: Metadata, names: seq<string>)
    requires FeatureNames(md) == names && |names| == 4 && WindowSize(md) == 3
    requires MinAbsDb(md) < MaxAbsDb(md) && WindowScaleMode(md) == ModeMean
    requires SplitIndices(names).hist == [0, 1, 2] && OrderHistPositions(names, [0, 1, 2]) == [0, 1, 2]
    ensures ReadLayout(md).Ok?
    ensures var l := ReadLayout(md).value;
      l.names == names && l.mode == ModeMean && l.selected == [0, 1, 2]
  {
    ReadLayoutOf(md);
  }

  /** The metadata carries the four names, window 3 and the default scaling. */
  lemma ScenarioMetadata()
    ensures FeatureNames(Md) == Names && WindowSize(Md) == 3
    ensures MinAbsDb(Md) < MaxAbsDb(Md) && WindowScaleMode(Md) == ModeMean
  {
  }

  /** The layout the metadata determines: default mode, window 0, 1, 2. */
  lemma ScenarioLayout()
    ensures ReadLayout(Md).Ok?
    ensures var l := ReadLayout(Md).value;
      l.names == Names && l.mode == ModeMean && l.selected == [0, 1, 2]
  {
    ScenarioMetadata();
    ScenarioWindow();
    LayoutOfOrderedWindow(Md, Names);
  }

  /** The layout facts the remaining steps use. */
  ghost predicate ScenarioLayoutFacts(l: Layout) {
    && ValidLayout(l)
    && l.names == Names && l.mode == ModeMean && l.selected == [0, 1, 2]
    && l.split == SplitIndices(Names)
  }

  /** The window holds 10, 20, 30. */
  lemma ScenarioWindowValues(l: Layout)
    requires ScenarioLayoutFacts(l)
    ensures HistoryPresent(l, Inputs) && WindowValues(l, Inputs) == [10.0, 20.0, 30.0]
  {
  }

  /** The window values are present and positive, and their mean 20 is the base. */
  lemma ScenarioHistory(l: Layout)
    requires ScenarioLayoutFacts(l)
    ensures HistoryPresent(l, Inputs) && HistoryPositive(l, Inputs)
    ensures WindowValues(l, Inputs) == [10.0, 20.0, 30.0]
    ensures CollectHistory(l, Inputs) == Ok([10.0, 20.0, 30.0])
    ensures WindowBase([10.0, 20.0, 30.0], ModeMean) == Ok(20.0)
  {
    ScenarioWindowValues(l);
    var raw := [10.0, 20.0, 30.0];
    assert Sum(raw) == 60.0 by {
      assert raw[..2] == [10.0, 20.0];
      assert [10.0, 20.0][..1] == [10.0];
      assert [10.0][..0] == [];
      assert Sum([10.0]) == 10.0;
      assert Sum([10.0, 20.0]) == 30.0;
    }
    assert Mean(raw) == 20.0;
  }

  /** With no noise position the vector is always built. */
  lemma ScenarioVectorBuilt(l: Layout)
    requires ScenarioLayoutFacts(l)
    ensures BuildVector(l, Inputs, [10.0, 20.0, 30.0], 20.0).Ok?
  {
    ScenarioNames();
    NoNoisePositions(Names);
  }

  /** The vector is built, and each of its slots is as the slot description says. */
  lemma ScenarioVectorSlots(l: Layout, raw: seq<real>, base: real)
    requires ScenarioLayoutFacts(l) && raw == [10.0, 20.0, 30.0] && base == 20.0
    ensures BuildVector(l, Inputs, raw, base).Ok?
    ensures forall i :: 0 <= i < 4 ==> BuildVector(l, Inputs, raw, base).value[i] == ExpectedSlot(l, Inputs, 20.0, i)
  {
    ScenarioWindowValues(l);
    ScenarioVectorBuilt(l);
    BuildVectorContents(l, Inputs, raw, base);
  }

  /** Each slot holds the corresponding entry of the scaled vector. */
  lemma ScenarioSlot(l: Layout, i: nat)
    requires ScenarioLayoutFacts(l) && i < 4
    ensures ExpectedSlot(l, Inputs, 20.0, i) == ScaledVector[i]
  {
    if i < 3 {
      WindowSlot(l, i);
    } else {
      AuxSlot(l);
    }
  }

  /** Four slots holding the expected values are the scaled vector. */
  lemma ScenarioSlotValues(l: Layout, x: seq<real>)
    requires ScenarioLayoutFacts(l) && |x| == 4
    requires forall i :: 0 <= i < 4 ==> x[i] == ExpectedSlot(l, Inputs, 20.0, i)
    ensures x == ScaledVector
  {
    forall i | 0 <= i < 4
      ensures x[i] == ScaledVector[i]
    {
      ScenarioSlot(l, i);
    }
  }

  /** The vector: the window divided by 20, then `aux` passed through. */
  lemma ScenarioVector(l: Layout, raw: seq<real>, base: real)
    requires ScenarioLayoutFacts(l) && raw == [10.0, 20.0, 30.0] && base == 20.0
    ensures BuildVector(l, Inputs, raw, base) == Ok(ScaledVector)
  {
    ScenarioVectorSlots(l, raw, base);
    ScenarioSlotValues(l, BuildVector(l, Inputs, raw, base).value);
  }

  /** A window slot holds its value divided by the base. */
  lemma WindowSlot(l: Layout, i: nat)
    requires ScenarioLayoutFacts(l) && i < 3
    ensures ExpectedSlot(l, Inputs, 20.0, i) == Inputs[Names[i]] / 20.0
  {
    assert i in l.selected;
  }

  /** The `aux` slot passes its value through. */
  lemma AuxSlot(l: Layout)
    requires ScenarioLayoutFacts(l)
    ensures ExpectedSlot(l, Inputs, 20.0, 3) == 5.0
  {
    ScenarioNames();
  }

  /**
   * The arithmetic chain: with an estimator answering 1.1 on the
   * scaled vector, the service predicts 22.0 from base 20.
   */
  lemma ScenarioPrediction(model: Estimator)
    requires model(ScaledVector) == Some(1.1)
    ensures PredictWithModel(model, Md, Inputs) == Ok(Prediction(22.0, 1.1, 20.0, ScaledVector, Names))
  {
    ScenarioLayout();
    ReadLayoutOf(Md);
    var l := ReadLayout(Md).value;
    assert ScenarioLayoutFacts(l);
    ScenarioHistory(l);
    ScenarioVector(l, [10.0, 20.0, 30.0], 20.0);
    assert Unscale(1.1, 20.0) == 22.0;
  }
}
