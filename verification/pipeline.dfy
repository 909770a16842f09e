/**
 * `predict_with_model`: turn a flat `name -> value` feature map and a model's
 * metadata into the exact input vector, call the estimator, and unscale its
 * output by the window base.
 */
module Pipeline {
  import opened Common
  import opened ModelMetadata
  import opened FeatureSplit
  import opened HistOrder
  import opened Scaling

  /** The loaded estimator: `model.predict([x])[0]`, `None` when that raises. */
  type Estimator = seq<real> -> Option<real>

  /** The exceptions `predict_with_model` raises, one per failing check. */
  datatype PipelineError =
    | NoFeatureNames
    | NonPositiveWindow(windowSize: int)
    | EmptyNoiseRange(minAbsDb: real, maxAbsDb: real)
    | NoHistoryFeatures
    | MissingHistory(names: seq<string>)
    | NonPositiveHistory
    | UnknownScaleMode(mode: string)
    | MissingNoise(name: string)
    | InferenceFailed

  /** The returned dict: unscaled and model-space prediction, the base, the vector and its names. */
  datatype Prediction = Prediction(
    yPred: real,
    yPredScaled: real,
    base: real,
    xVector: seq<real>,
    featureNames: seq<string>)

  /** What the metadata fixes before any feature value is read. */
  datatype Layout = Layout(
    names: seq<string>,
    windowSize: int,
    mode: string,
    minAbsDb: real,
    maxAbsDb: real,
    split: Split,
    selected: seq<nat>)

  /**
   * The history positions the window is read from: the ordered history
   * positions, cut to the first `window_size` when their number differs from it.
   */
  function SelectWindow(names: seq<string>, hist: seq<nat>, windowSize: int): seq<nat>
    requires InRange(names, hist) && windowSize > 0
  {
    var ordered := OrderHistPositions(names, hist);
    if |hist| != windowSize then ordered[..MinInt(windowSize, |ordered|)] else ordered
  }

  /**
   * Both branches of the selection agree: the window is the first
   * `min(window_size, #history)` positions in suffix order.
   */
  lemma SelectWindowIsPrefix(names: seq<string>, hist: seq<nat>, windowSize: int)
    requires InRange(names, hist) && windowSize > 0
    ensures SelectWindow(names, hist, windowSize)
      == OrderHistPositions(names, hist)[..MinInt(windowSize, |hist|)]
  {
  }

  /** The facts about a layout the later steps rely on. */
  ghost predicate ValidLayout(l: Layout) {
    && |l.names| > 0
    && l.windowSize > 0
    && l.maxAbsDb > l.minAbsDb
    && Partitions(l.split, |l.names|)
    && |l.split.hist| > 0
    && |l.selected| == MinInt(l.windowSize, |l.split.hist|)
    && Distinct(l.selected)
    && (forall k :: 0 <= k < |l.selected| ==> l.selected[k] < |l.names| && l.selected[k] in l.split.hist)
  }

  /** The layout is the one the source derives from the metadata. */
  ghost predicate LayoutOf(l: Layout, md: Metadata) {
    && l.names == FeatureNames(md)
    && l.windowSize == WindowSize(md)
    && l.mode == WindowScaleMode(md)
    && l.minAbsDb == MinAbsDb(md)
    && l.maxAbsDb == MaxAbsDb(md)
    && l.split == SplitIndices(l.names)
    && l.windowSize > 0
    && InRange(l.names, l.split.hist)
    && l.selected == SelectWindow(l.names, l.split.hist, l.windowSize)
  }

  /** The ordered history positions are distinct and each is a history position. */
  lemma OrderedFacts(names: seq<string>, hist: seq<nat>)
    requires InRange(names, hist) && StrictlyIncreasing(hist)
    ensures |OrderHistPositions(names, hist)| == |hist|
    ensures Distinct(OrderHistPositions(names, hist))
    ensures forall k :: 0 <= k < |OrderHistPositions(names, hist)| ==> OrderHistPositions(names, hist)[k] in hist
  {
    var ordered := OrderHistPositions(names, hist);
    StrictlyIncreasingIsDistinct(hist);
    assert |ordered| == |multiset(ordered)| == |hist|;
  }

  lemma SelectedFacts(names: seq<string>, hist: seq<nat>, windowSize: int)
    requires windowSize > 0 && InRange(names, hist) && StrictlyIncreasing(hist)
    ensures |SelectWindow(names, hist, windowSize)| == MinInt(windowSize, |hist|)
    ensures Distinct(SelectWindow(names, hist, windowSize))
    ensures forall k :: 0 <= k < |SelectWindow(names, hist, windowSize)| ==>
      SelectWindow(names, hist, windowSize)[k] < |names| && SelectWindow(names, hist, windowSize)[k] in hist
  {
    OrderedFacts(names, hist);
    var ordered := OrderHistPositions(names, hist);
    var m := MinInt(windowSize, |hist|);
    SelectWindowIsPrefix(names, hist, windowSize);
    PrefixFacts(ordered, hist, m);
  }

  /** A prefix of a distinct sequence drawn from `from` is distinct and drawn from `from`. */
  lemma PrefixFacts(s: seq<nat>, from: seq<nat>, m: nat)
    requires m <= |s| && Distinct(s) && forall k :: 0 <= k < |s| ==> s[k] in from
    ensures Distinct(s[..m]) && forall k :: 0 <= k < m ==> s[..m][k] in from
  {
  }


  /** The opening of `predict_with_model`: read the metadata essentials, failing in the source's order. */
  function ReadLayout(md: Metadata): (r: Result<Layout, PipelineError>)
    ensures r.Ok? ==> ValidLayout(r.value)
    ensures r.Ok? ==> r.value.names == FeatureNames(md) && r.value.mode == WindowScaleMode(md)
  {
    var names := FeatureNames(md);
    if |names| == 0 then Err(NoFeatureNames)
    else
      var windowSize := WindowSize(md);
      if windowSize <= 0 then Err(NonPositiveWindow(windowSize))
      else
        var vmin := MinAbsDb(md);
        var vmax := MaxAbsDb(md);
        if vmax <= vmin then Err(EmptyNoiseRange(vmin, vmax))
        else
          var split := SplitIndices(names);
          if |split.hist| == 0 then Err(NoHistoryFeatures)
          else
            SelectedFacts(names, split.hist, windowSize);
            Ok(Layout(names, windowSize, WindowScaleMode(md), vmin, vmax, split,
                      SelectWindow(names, split.hist, windowSize)))
  }

  /** A layout that was read is the one the metadata determines. */
  lemma ReadLayoutOf(md: Metadata)
    requires ReadLayout(md).Ok?
    ensures LayoutOf(ReadLayout(md).value, md)
  {
  }

  /** The names of the selected history features, in window order. */
  function HistoryNames(l: Layout): (r: seq<string>)
    requires ValidLayout(l)
    ensures |r| == |l.selected|
  {
    seq(|l.selected|, k requires 0 <= k < |l.selected| => l.names[l.selected[k]])
  }

  ghost predicate HistoryPresent(l: Layout, features: map<string, real>)
    requires ValidLayout(l)
  {
    forall k :: 0 <= k < |l.selected| ==> l.names[l.selected[k]] in features
  }

  predicate HistoryPositive(l: Layout, features: map<string, real>)
    requires ValidLayout(l) && HistoryPresent(l, features)
  {
    forall k :: 0 <= k < |l.selected| ==> features[l.names[l.selected[k]]] > 0.0
  }

  /** The raw values supplied for the window, in window order. */
  function WindowValues(l: Layout, features: map<string, real>): (r: seq<real>)
    requires ValidLayout(l) && HistoryPresent(l, features)
    ensures |r| == |l.selected|
  {
    seq(|l.selected|, k requires 0 <= k < |l.selected| => features[l.names[l.selected[k]]])
  }

  /**
   * The `hist_raw` loop of `predict_with_model`: the raw window values in window order. Every missing
   * history name is reported, in window order; then every value must be positive.
   */
  function CollectHistory(l: Layout, features: map<string, real>): (r: Result<seq<real>, PipelineError>)
    requires ValidLayout(l)
    ensures r.Ok? <==> HistoryPresent(l, features) && HistoryPositive(l, features)
    ensures r.Ok? ==> r.value == WindowValues(l, features) && |r.value| > 0
    ensures r.Err? && r.error.MissingHistory? <==> !HistoryPresent(l, features)
    ensures r.Err? && r.error.MissingHistory? ==> r.error.names == Absent(HistoryNames(l), features)
    ensures r.Err? && !r.error.MissingHistory? ==> r.error == NonPositiveHistory
  {
    var histNames := HistoryNames(l);
    var missing := Absent(histNames, features);
    AbsentMembers(histNames, features);
    assert forall k :: 0 <= k < |histNames| ==> histNames[k] == l.names[l.selected[k]];
    if |missing| > 0 then Err(MissingHistory(missing))
    else
      if !HistoryPositive(l, features) then Err(NonPositiveHistory)
      else Ok(WindowValues(l, features))
  }

  /** `compute_window_base`, with an unknown mode reported as the pipeline's error. */
  function WindowBase(raw: seq<real>, mode: string): (r: Result<real, PipelineError>)
    requires |raw| > 0
    ensures r.Ok? <==> KnownMode(mode)
    ensures r.Ok? ==> r.value >= MinBase && Ok(r.value) == ComputeWindowBase(raw, mode)
    ensures r.Err? ==> r.error == UnknownScaleMode(mode)
  {
    match ComputeWindowBase(raw, mode)
    case Ok(base) => Ok(base)
    case Err(m) => Err(UnknownScaleMode(m))
  }

  /** The window scaling of `predict_with_model`: mode `none` keeps the raw values, every other mode divides them by the base. */
  function ScaleHistory(raw: seq<real>, mode: string, base: real): (r: seq<real>)
    requires base > 0.0
    ensures |r| == |raw|
    ensures forall k :: 0 <= k < |raw| ==> r[k] * base == (if mode == ModeNone then raw[k] * base else raw[k])
  {
    if mode == ModeNone then raw else DivideAll(raw, base)
  }

  function Zeros(n: nat): (r: seq<real>)
    ensures |r| == n && forall i :: 0 <= i < n ==> r[i] == 0.0
  {
    seq(n, _ => 0.0)
  }

  /** `for pos, val in zip(positions, values): x[pos] = val`. */
  function Fill(x: seq<real>, positions: seq<nat>, values: seq<real>): (r: seq<real>)
    requires |positions| == |values|
    requires forall k :: 0 <= k < |positions| ==> positions[k] < |x|
    ensures |r| == |x|
    ensures forall i :: 0 <= i < |x| && i !in positions ==> r[i] == x[i]
    ensures Distinct(positions) ==> forall k :: 0 <= k < |positions| ==> r[positions[k]] == values[k]
    decreases |positions|
  {
    if |positions| == 0 then x
    else
      var r := Fill(x[positions[0] := values[0]], positions[1..], values[1..]);
      assert forall i :: i in positions[1..] ==> i in positions;
      r
  }

  /** The noise loop of `predict_with_model`: scale every noise feature, raising at the first one absent from the input. */
  function FillNoise(x: seq<real>, names: seq<string>, features: map<string, real>, noise: seq<nat>,
                     vmin: real, vmax: real): (r: Result<seq<real>, PipelineError>)
    requires vmax > vmin
    requires forall k :: 0 <= k < |noise| ==> noise[k] < |x| && noise[k] < |names|
    ensures r.Ok? <==> forall k :: 0 <= k < |noise| ==> names[noise[k]] in features
    ensures r.Err? ==> FirstMissingNoise(names, features, noise, r.error)
    ensures r.Ok? ==> |r.value| == |x| && forall i :: 0 <= i < |x| && i !in noise ==> r.value[i] == x[i]
    ensures r.Ok? && Distinct(noise) ==> forall k :: 0 <= k < |noise| ==>
      r.value[noise[k]] == ScaleNoiseAbsDb(features[names[noise[k]]], vmin, vmax)
    decreases |noise|
  {
    if |noise| == 0 then Ok(x)
    else
      var name := names[noise[0]];
      if name !in features then Err(MissingNoise(name))
      else
        var r := FillNoise(x[noise[0] := ScaleNoiseAbsDb(features[name], vmin, vmax)], names, features, noise[1..], vmin, vmax);
        assert forall i :: i in noise[1..] ==> i in noise;
        if r.Err? then FirstMissingNoiseLater(names, features, noise, r.error); r else r
  }

  /** `e` reports the first noise position whose name the input lacks. */
  ghost predicate FirstMissingNoise(names: seq<string>, features: map<string, real>, noise: seq<nat>, e: PipelineError)
    requires forall k :: 0 <= k < |noise| ==> noise[k] < |names|
  {
    exists k :: (0 <= k < |noise| && e == MissingNoise(names[noise[k]])
      && names[noise[k]] !in features && forall j :: 0 <= j < k ==> names[noise[j]] in features)
  }

  /** The first missing name after a present head is the first missing name overall. */
  lemma FirstMissingNoiseLater(names: seq<string>, features: map<string, real>, noise: seq<nat>, e: PipelineError)
    requires forall k :: 0 <= k < |noise| ==> noise[k] < |names|
    requires |noise| > 0 && names[noise[0]] in features
    requires FirstMissingNoise(names, features, noise[1..], e)
    ensures FirstMissingNoise(names, features, noise, e)
  {
    var k' :| 0 <= k' < |noise[1..]| && e == MissingNoise(names[noise[1..][k']])
      && names[noise[1..][k']] !in features && forall j :: 0 <= j < k' ==> names[noise[1..][j]] in features;
    assert forall j :: 1 <= j < k' + 1 ==> names[noise[j]] == names[noise[1..][j - 1]];
    assert names[noise[k' + 1]] !in features;
  }

  /** The loop over `other_idx` in `predict_with_model`: every other feature present in the input is passed through. */
  function FillOther(x: seq<real>, names: seq<string>, features: map<string, real>, other: seq<nat>): (r: seq<real>)
    requires forall k :: 0 <= k < |other| ==> other[k] < |x| && other[k] < |names|
    ensures |r| == |x|
    ensures forall i :: 0 <= i < |x| && i !in other ==> r[i] == x[i]
    ensures Distinct(other) ==> forall k :: 0 <= k < |other| ==>
      r[other[k]] == (if names[other[k]] in features then features[names[other[k]]] else x[other[k]])
    decreases |other|
  {
    if |other| == 0 then x
    else
      var name := names[other[0]];
      var x' := if name in features then x[other[0] := features[name]] else x;
      var r := FillOther(x', names, features, other[1..]);
      assert forall i :: i in other[1..] ==> i in other;
      r
  }

  /** The vector `x` of `predict_with_model`: the input vector, from zeros, in the source's fill order. */
  function BuildVector(l: Layout, features: map<string, real>, raw: seq<real>, base: real): (r: Result<seq<real>, PipelineError>)
    requires ValidLayout(l) && |raw| == |l.selected| && base > 0.0
    ensures r.Ok? ==> |r.value| == |l.names|
  {
    var x0 := Fill(Zeros(|l.names|), l.selected, ScaleHistory(raw, l.mode, base));
    var x1 :- FillNoise(x0, l.names, features, l.split.noise, l.minAbsDb, l.maxAbsDb);
    Ok(FillOther(x1, l.names, features, l.split.other))
  }

  /** `y_pred = y_pred_scaled * base`: back from model space to the units of the history values. */
  function Unscale(yScaled: real, base: real): real {
    yScaled * base
  }

  lemma UnscaleInverts(yScaled: real, base: real)
    requires base >= MinBase
    ensures Unscale(yScaled, base) / base == yScaled
  {
  }

  /** `model.predict([x])[0]`; an exception becomes `InferenceFailed`. */
  function Infer(model: Estimator, x: seq<real>): (r: Result<real, PipelineError>)
    ensures r.Ok? <==> model(x).Some?
    ensures r.Ok? ==> model(x) == Some(r.value)
    ensures r.Err? ==> r.error == InferenceFailed
  {
    match model(x)
    case Some(y) => Ok(y)
    case None => Err(InferenceFailed)
  }

  /** `predict_with_model` after its metadata checks. */
  function PredictFromLayout(model: Estimator, l: Layout, features: map<string, real>): (r: Result<Prediction, PipelineError>)
    requires ValidLayout(l)
    ensures r.Ok? ==> r.value.yPred == Unscale(r.value.yPredScaled, r.value.base)
    ensures r.Ok? ==> r.value.base >= MinBase
    ensures r.Ok? ==> r.value.featureNames == l.names && |r.value.xVector| == |l.names|
    ensures r.Ok? && l.mode == ModeNone ==> r.value.base == 1.0
    ensures r.Ok? ==> HistoryPresent(l, features) && Ok(r.value.base) == ComputeWindowBase(WindowValues(l, features), l.mode)
    ensures r.Ok? ==> model(r.value.xVector) == Some(r.value.yPredScaled)
    ensures r.Err? ==> (r.error.MissingHistory? || r.error.NonPositiveHistory? || r.error.UnknownScaleMode?
      || r.error.MissingNoise? || r.error.InferenceFailed?)
  {
    var raw :- CollectHistory(l, features);
    var base :- WindowBase(raw, l.mode);
    var x :- BuildVector(l, features, raw, base);
    var y :- Infer(model, x);
    Ok(Prediction(Unscale(y, base), y, base, x, l.names))
  }

  /**
   * `predict_with_model(model, metadata, features)`. On success the returned
   * prediction is the estimator's output on the returned vector multiplied by
   * the window base, the base is at least 1e-8, and the vector has one slot
   * per declared feature name.
   */
  function PredictWithModel(model: Estimator, md: Metadata, features: map<string, real>): (r: Result<Prediction, PipelineError>)
    ensures r.Ok? ==> r.value.yPred == Unscale(r.value.yPredScaled, r.value.base)
    ensures r.Ok? ==> r.value.base >= MinBase
    ensures r.Ok? ==> r.value.featureNames == FeatureNames(md) && |r.value.xVector| == |r.value.featureNames| > 0
    ensures r.Ok? && WindowScaleMode(md) == ModeNone ==> r.value.base == 1.0
    ensures r.Ok? ==> model(r.value.xVector) == Some(r.value.yPredScaled)
  {
    var l :- ReadLayout(md);
    PredictFromLayout(model, l, features)
  }

  ghost predicate NoisePresent(l: Layout, features: map<string, real>)
    requires ValidLayout(l)
  {
    forall k :: 0 <= k < |l.split.noise| ==> l.names[l.split.noise[k]] in features
  }

  /**
   * The independent description of one slot of the input vector, by the kind
   * of its name: a window slot holds its value scaled by the base (raw in mode
   * `none`), any other history slot 0, a noise slot its scaled magnitude, and
   * any other slot its value or 0 when the input lacks it.
   */
  function ExpectedSlot(l: Layout, features: map<string, real>, base: real, i: nat): real
    requires i < |l.names| && base > 0.0 && l.maxAbsDb > l.minAbsDb
  {
    var name := l.names[i];
    if i in l.selected then
      (if name !in features then 0.0 else if l.mode == ModeNone then features[name] else features[name] / base)
    else if IsHistName(name) then 0.0
    else if IsNoiseName(name) then
      (if name in features then ScaleNoiseAbsDb(features[name], l.minAbsDb, l.maxAbsDb) else 0.0)
    else if name in features then features[name]
    else 0.0
  }

  lemma {:induction false} BuildVectorContents(l: Layout, features: map<string, real>, raw: seq<real>, base: real)
    requires ValidLayout(l) && l.split == SplitIndices(l.names)
    requires |raw| == |l.selected| && base > 0.0
    requires HistoryPresent(l, features) && raw == WindowValues(l, features)
    requires BuildVector(l, features, raw, base).Ok?
    ensures NoisePresent(l, features)
    ensures forall i :: 0 <= i < |l.names| ==> BuildVector(l, features, raw, base).value[i] == ExpectedSlot(l, features, base, i)
  {
    var names := l.names;
    var scaled := ScaleHistory(raw, l.mode, base);
    var x0 := Fill(Zeros(|names|), l.selected, scaled);
    var r1 := FillNoise(x0, names, features, l.split.noise, l.minAbsDb, l.maxAbsDb);
    var x1 := r1.value;
    var x := FillOther(x1, names, features, l.split.other);
    assert BuildVector(l, features, raw, base).value == x;
    StrictlyIncreasingIsDistinct(l.split.noise);
    StrictlyIncreasingIsDistinct(l.split.other);
    forall i | 0 <= i < |names|
      ensures x[i] == ExpectedSlot(l, features, base, i)
    {
      if i in l.selected {
        var k :| 0 <= k < |l.selected| && l.selected[k] == i;
        assert x0[i] == scaled[k];
        assert i in l.split.hist;
        assert scaled[k] == (if l.mode == ModeNone then raw[k] else raw[k] / base);
      } else if i in l.split.hist {
        assert x[i] == 0.0;
      } else if i in l.split.noise {
        var k :| 0 <= k < |l.split.noise| && l.split.noise[k] == i;
        assert x1[i] == ScaleNoiseAbsDb(features[names[i]], l.minAbsDb, l.maxAbsDb);
        assert !IsHistName(names[i]) && IsNoiseName(names[i]);
      } else {
        assert i in l.split.other;
        var k :| 0 <= k < |l.split.other| && l.split.other[k] == i;
        assert x1[i] == x0[i] == 0.0;
        assert !IsHistName(names[i]) && !IsNoiseName(names[i]);
      }
    }
  }

  /**
   * On success the input vector is exactly the slot-by-slot description
   * `ExpectedSlot` for the layout the metadata determines, so extra input keys
   * play no part, history slots beyond the window stay 0 and absent "other"
   * features stay 0; every window and noise feature was supplied.
   */
  lemma PredictVector(model: Estimator, md: Metadata, features: map<string, real>)
    requires PredictWithModel(model, md, features).Ok?
    ensures ReadLayout(md).Ok? && LayoutOf(ReadLayout(md).value, md)
    ensures var l := ReadLayout(md).value; var p := PredictWithModel(model, md, features).value;
      && HistoryPresent(l, features) && NoisePresent(l, features)
      && forall i :: 0 <= i < |l.names| ==> p.xVector[i] == ExpectedSlot(l, features, p.base, i)
  {
    var l := ReadLayout(md).value;
    ReadLayoutOf(md);
    assert PredictWithModel(model, md, features) == PredictFromLayout(model, l, features);
    LayoutVector(model, l, features);
  }

  /** `PredictVector` for a layout already read. */
  lemma LayoutVector(model: Estimator, l: Layout, features: map<string, real>)
    requires ValidLayout(l) && l.split == SplitIndices(l.names)
    requires PredictFromLayout(model, l, features).Ok?
    ensures var p := PredictFromLayout(model, l, features).value;
      && HistoryPresent(l, features) && NoisePresent(l, features)
      && forall i :: 0 <= i < |l.names| ==> p.xVector[i] == ExpectedSlot(l, features, p.base, i)
  {
    var raw := CollectHistory(l, features).value;
    var base := WindowBase(raw, l.mode).value;
    var x := BuildVector(l, features, raw, base);
    assert PredictFromLayout(model, l, features).value.xVector == x.value;
    assert PredictFromLayout(model, l, features).value.base == base;
    BuildVectorContents(l, features, raw, base);
  }

  /** Dividing the prediction by the base gives back the model-space output. */
  lemma PredictUnscaleInverts(model: Estimator, md: Metadata, features: map<string, real>)
    requires PredictWithModel(model, md, features).Ok?
    ensures PredictWithModel(model, md, features).value.yPred / PredictWithModel(model, md, features).value.base
      == PredictWithModel(model, md, features).value.yPredScaled
  {
    var p := PredictWithModel(model, md, features).value;
    UnscaleInverts(p.yPredScaled, p.base);
  }

  lemma SlotRoundTrip(mode: string, v: real, base: real, slot: real)
    requires base >= MinBase
    requires mode == ModeNone ==> base == 1.0
    requires slot == (if mode == ModeNone then v else v / base)
    ensures Unscale(slot, base) == v
  {
    ScaleRoundTrip(v, base);
  }

  /**
   * The window scaling is undone by the base: every window slot of the input
   * vector times the base gives back the raw value supplied for it.
   */
  lemma PredictRoundTrip(model: Estimator, md: Metadata, features: map<string, real>)
    requires PredictWithModel(model, md, features).Ok?
    ensures ReadLayout(md).Ok?
    ensures var p := PredictWithModel(model, md, features).value; var l := ReadLayout(md).value;
      HistoryPresent(l, features)
      && forall k :: 0 <= k < |l.selected| ==>
           Unscale(p.xVector[l.selected[k]], p.base) == features[l.names[l.selected[k]]]
  {
    var p := PredictWithModel(model, md, features).value;
    PredictVector(model, md, features);
    var l := ReadLayout(md).value;
    forall k | 0 <= k < |l.selected|
      ensures Unscale(p.xVector[l.selected[k]], p.base) == features[l.names[l.selected[k]]]
    {
      var i := l.selected[k];
      assert i in l.selected;
      assert p.xVector[i] == ExpectedSlot(l, features, p.base, i);
      SlotRoundTrip(l.mode, features[l.names[i]], p.base, p.xVector[i]);
    }
  }

  /** The metadata checks, each failing only once the earlier ones pass. */
  lemma MetadataErrors(md: Metadata)
    ensures var r := ReadLayout(md); var names := FeatureNames(md);
      && (r == Err(NoFeatureNames) <==> |names| == 0)
      && (r == Err(NonPositiveWindow(WindowSize(md))) <==> |names| > 0 && WindowSize(md) <= 0)
      && (r == Err(EmptyNoiseRange(MinAbsDb(md), MaxAbsDb(md))) <==>
           |names| > 0 && WindowSize(md) > 0 && MaxAbsDb(md) <= MinAbsDb(md))
      && (r == Err(NoHistoryFeatures) <==>
           |names| > 0 && WindowSize(md) > 0 && MaxAbsDb(md) > MinAbsDb(md)
           && forall i :: 0 <= i < |names| ==> !IsHistName(names[i]))
  {
    var names := FeatureNames(md);
    var split := SplitIndices(names);
    assert |split.hist| == 0 <==> forall i :: 0 <= i < |names| ==> !IsHistName(names[i]) by {
      if |split.hist| > 0 {
        assert split.hist[0] in split.hist;
      }
    }
  }

  /**
   * Once the metadata is usable, the checks on the supplied values, in the
   * source's order: missing window names (all listed), a non-positive window
   * value, an unknown scale mode, the first missing noise name, and the
   * estimator raising.
   */
  lemma RequestErrors(model: Estimator, md: Metadata, features: map<string, real>)
    requires ReadLayout(md).Ok?
    ensures var l := ReadLayout(md).value; var r := PredictWithModel(model, md, features);
      && (r.Err? && r.error.MissingHistory? <==> !HistoryPresent(l, features))
      && (r.Err? && r.error.MissingHistory? ==> r.error.names == Absent(HistoryNames(l), features))
      && (r == Err(NonPositiveHistory) <==> HistoryPresent(l, features) && !HistoryPositive(l, features))
      && (r == Err(UnknownScaleMode(l.mode)) <==>
           HistoryPresent(l, features) && HistoryPositive(l, features) && !KnownMode(l.mode))
      && (r.Err? && r.error.MissingNoise? <==>
           HistoryPresent(l, features) && HistoryPositive(l, features) && KnownMode(l.mode)
           && !NoisePresent(l, features))
      && (r.Err? && r.error.MissingNoise? ==> exists k :: (0 <= k < |l.split.noise|
           && r.error.name == l.names[l.split.noise[k]] && l.names[l.split.noise[k]] !in features
           && forall j :: 0 <= j < k ==> l.names[l.split.noise[j]] in features))
      && ((HistoryPresent(l, features) && HistoryPositive(l, features) && KnownMode(l.mode)
            && NoisePresent(l, features)) <==> (r.Ok? || r == Err(InferenceFailed)))
  {
    var l := ReadLayout(md).value;
    assert PredictWithModel(model, md, features) == PredictFromLayout(model, l, features);
    HistoryErrors(model, l, features);
    if HistoryPresent(l, features) && HistoryPositive(l, features) {
      LaterErrors(model, l, features);
    }
  }

  /** The two history checks, in order, before anything else. */
  lemma HistoryErrors(model: Estimator, l: Layout, features: map<string, real>)
    requires ValidLayout(l)
    ensures var r := PredictFromLayout(model, l, features);
      && (r.Err? && r.error.MissingHistory? <==> !HistoryPresent(l, features))
      && (r.Err? && r.error.MissingHistory? ==> r.error.names == Absent(HistoryNames(l), features))
      && (r == Err(NonPositiveHistory) <==> HistoryPresent(l, features) && !HistoryPositive(l, features))
  {
    var c := CollectHistory(l, features);
    if c.Err? {
      assert PredictFromLayout(model, l, features) == Err(c.error);
    } else {
      var r := PredictFromLayout(model, l, features);
      assert r.Err? ==> !r.error.MissingHistory? && !r.error.NonPositiveHistory?;
    }
  }

  /** Once the window is present and positive: the scale mode, then the noise, then the estimator. */
  lemma LaterErrors(model: Estimator, l: Layout, features: map<string, real>)
    requires ValidLayout(l) && HistoryPresent(l, features) && HistoryPositive(l, features)
    ensures var r := PredictFromLayout(model, l, features);
      && (r == Err(UnknownScaleMode(l.mode)) <==> !KnownMode(l.mode))
      && (r.Err? && r.error.MissingNoise? <==> KnownMode(l.mode) && !NoisePresent(l, features))
      && (r.Err? && r.error.MissingNoise? ==> exists k :: (0 <= k < |l.split.noise|
           && r.error.name == l.names[l.split.noise[k]] && l.names[l.split.noise[k]] !in features
           && forall j :: 0 <= j < k ==> l.names[l.split.noise[j]] in features))
      && ((KnownMode(l.mode) && NoisePresent(l, features)) <==> (r.Ok? || r == Err(InferenceFailed)))
  {
    var raw := CollectHistory(l, features).value;
    if KnownMode(l.mode) {
      var base := WindowBase(raw, l.mode).value;
      var x0 := Fill(Zeros(|l.names|), l.selected, ScaleHistory(raw, l.mode, base));
      assert BuildVector(l, features, raw, base).Ok? <==> NoisePresent(l, features);
    }
  }

  /** The window slots of an input vector, in window order. */
  function WindowSlots(x: seq<real>, selected: seq<nat>): (r: seq<real>)
    requires forall k :: 0 <= k < |selected| ==> selected[k] < |x|
    ensures |r| == |selected|
  {
    seq(|selected|, k requires 0 <= k < |selected| => x[selected[k]])
  }

  /**
   * Outside mode `none`, the window slots the estimator sees are exactly the
   * raw window values divided by the base.
   */
  lemma PredictWindowScaled(model: Estimator, md: Metadata, features: map<string, real>)
    requires PredictWithModel(model, md, features).Ok?
    requires WindowScaleMode(md) != ModeNone
    ensures ReadLayout(md).Ok?
    ensures var l := ReadLayout(md).value; var p := PredictWithModel(model, md, features).value;
      HistoryPresent(l, features)
      && WindowSlots(p.xVector, l.selected) == DivideAll(WindowValues(l, features), p.base)
  {
    PredictVector(model, md, features);
    var l := ReadLayout(md).value;
    var p := PredictWithModel(model, md, features).value;
    var raw := WindowValues(l, features);
    var slots := WindowSlots(p.xVector, l.selected);
    forall k | 0 <= k < |slots|
      ensures slots[k] == DivideAll(raw, p.base)[k]
    {
      assert l.selected[k] in l.selected;
      assert slots[k] == ExpectedSlot(l, features, p.base, l.selected[k]);
    }
  }

  /**
   * In mode `window_mean` the base is the window mean whenever that mean is at
   * least 1e-8, and the window slots the estimator sees then average exactly 1.
   */
  lemma PredictWindowMean(model: Estimator, md: Metadata, features: map<string, real>)
    requires PredictWithModel(model, md, features).Ok?
    requires WindowScaleMode(md) == ModeMean
    ensures ReadLayout(md).Ok?
    ensures var l := ReadLayout(md).value; var p := PredictWithModel(model, md, features).value;
      HistoryPresent(l, features)
      && (Mean(WindowValues(l, features)) >= MinBase ==>
            p.base == Mean(WindowValues(l, features)) && Mean(WindowSlots(p.xVector, l.selected)) == 1.0)
  {
    var l := ReadLayout(md).value;
    var p := PredictWithModel(model, md, features).value;
    assert PredictWithModel(model, md, features) == PredictFromLayout(model, l, features);
    var raw := WindowValues(l, features);
    assert Ok(p.base) == ComputeWindowBase(raw, ModeMean);
    if Mean(raw) >= MinBase {
      WindowMeanNormalizes(raw);
      PredictWindowScaled(model, md, features);
    }
  }
}
