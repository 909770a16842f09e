/**
 * The metadata document stored beside each model, and the readers both the
 * registry and the service apply to it. A key that is absent from the JSON
 * document is `None`.
 */
module ModelMetadata {
  import opened Common

  /** The `noise_scaling` block: bounds of the |dB| min-max scaling. */
  datatype NoiseScaling = NoiseScaling(minAbsDb: Option<real>, maxAbsDb: Option<real>)

  /** The optional `scaling` block; when present its keys take precedence over top-level ones. */
  datatype ScalingBlock = ScalingBlock(windowScaleMode: Option<string>, noiseScaling: Option<NoiseScaling>)

  datatype Metadata = Metadata(
    tag: Option<string>,
    modelTag: Option<string>,
    featureNames: Option<seq<string>>,
    featureNamesIn: Option<seq<string>>,
    windowSize: Option<int>,
    scaling: Option<ScalingBlock>,
    windowScaleMode: Option<string>,
    noiseScaling: Option<NoiseScaling>)

  const DefaultScaleMode: string := "window_mean"
  const DefaultMinAbsDb: real := 50.0
  const DefaultMaxAbsDb: real := 150.0

  predicate NonEmptyString(o: Option<string>) {
    o.Some? && |o.value| > 0
  }

  predicate NonEmptyNames(o: Option<seq<string>>) {
    o.Some? && |o.value| > 0
  }

  /**
   * `metadata.get("feature_names") or metadata.get("feature_names_in") or []`:
   * the first non-empty list of the two, else the empty list.
   */
  function FeatureNames(md: Metadata): (r: seq<string>)
    ensures |r| == 0 <==> !NonEmptyNames(md.featureNames) && !NonEmptyNames(md.featureNamesIn)
    ensures NonEmptyNames(md.featureNames) ==> r == md.featureNames.value
    ensures !NonEmptyNames(md.featureNames) && NonEmptyNames(md.featureNamesIn) ==> r == md.featureNamesIn.value
  {
    if NonEmptyNames(md.featureNames) then md.featureNames.value
    else if NonEmptyNames(md.featureNamesIn) then md.featureNamesIn.value
    else []
  }

  /** `int(metadata.get("window_size", 0))`: the declared size, 0 when absent. */
  function WindowSize(md: Metadata): (r: int)
    ensures md.windowSize.Some? ==> r == md.windowSize.value
    ensures md.windowSize.None? ==> r == 0
  {
    md.windowSize.GetOr(0)
  }

  /** The `scaling` block declares a window scale mode. */
  predicate BlockMode(md: Metadata) {
    md.scaling.Some? && md.scaling.value.windowScaleMode.Some?
  }

  /** The `scaling` block declares a noise block. */
  predicate BlockNoise(md: Metadata) {
    md.scaling.Some? && md.scaling.value.noiseScaling.Some?
  }

  /**
   * `scaling.get("window_scale_mode", metadata.get("window_scale_mode", "window_mean"))`:
   * the scaling block's mode wins, then the top-level one, then `window_mean`.
   */
  function WindowScaleMode(md: Metadata): (r: string)
    ensures BlockMode(md) ==> r == md.scaling.value.windowScaleMode.value
    ensures !BlockMode(md) && md.windowScaleMode.Some? ==> r == md.windowScaleMode.value
    ensures !BlockMode(md) && md.windowScaleMode.None? ==> r == DefaultScaleMode
  {
    if BlockMode(md) then md.scaling.value.windowScaleMode.value
    else md.windowScaleMode.GetOr(DefaultScaleMode)
  }

  /**
   * `scaling.get("noise_scaling", metadata.get("noise_scaling", {...}))`: the
   * scaling block's noise block wins, then the top-level one, then the defaults.
   */
  function NoiseConfig(md: Metadata): (r: NoiseScaling)
    ensures BlockNoise(md) ==> r == md.scaling.value.noiseScaling.value
    ensures !BlockNoise(md) && md.noiseScaling.Some? ==> r == md.noiseScaling.value
    ensures !BlockNoise(md) && md.noiseScaling.None? ==> r == NoiseScaling(Some(DefaultMinAbsDb), Some(DefaultMaxAbsDb))
  {
    if BlockNoise(md) then md.scaling.value.noiseScaling.value
    else md.noiseScaling.GetOr(NoiseScaling(Some(DefaultMinAbsDb), Some(DefaultMaxAbsDb)))
  }

  /** `min_abs_db` of the noise block in force, 50.0 when that block lacks it. */
  function MinAbsDb(md: Metadata): (r: real)
    ensures NoiseConfig(md).minAbsDb.Some? ==> r == NoiseConfig(md).minAbsDb.value
    ensures NoiseConfig(md).minAbsDb.None? ==> r == DefaultMinAbsDb
  {
    NoiseConfig(md).minAbsDb.GetOr(DefaultMinAbsDb)
  }

  /** `max_abs_db` of the noise block in force, 150.0 when that block lacks it. */
  function MaxAbsDb(md: Metadata): (r: real)
    ensures NoiseConfig(md).maxAbsDb.Some? ==> r == NoiseConfig(md).maxAbsDb.value
    ensures NoiseConfig(md).maxAbsDb.None? ==> r == DefaultMaxAbsDb
  {
    NoiseConfig(md).maxAbsDb.GetOr(DefaultMaxAbsDb)
  }

  /**
   * Metadata that configures no scaling at all gets mode `window_mean` and the
   * noise range [50, 150], which passes the range check.
   */
  lemma DefaultScaling(md: Metadata)
    requires md.scaling.None? && md.windowScaleMode.None? && md.noiseScaling.None?
    ensures WindowScaleMode(md) == "window_mean"
    ensures MinAbsDb(md) == 50.0 && MaxAbsDb(md) == 150.0 && MinAbsDb(md) < MaxAbsDb(md)
  {
  }

  /**
   * When the scaling block declares both the mode and the noise block, the
   * top-level keys are never read.
   */
  lemma ScalingBlockOverrides(md: Metadata, mode: Option<string>, noise: Option<NoiseScaling>)
    requires BlockMode(md) && BlockNoise(md)
    ensures var other := md.(windowScaleMode := mode, noiseScaling := noise);
      && WindowScaleMode(other) == WindowScaleMode(md)
      && MinAbsDb(other) == MinAbsDb(md) && MaxAbsDb(other) == MaxAbsDb(md)
  {
  }

  /**
   * The registry key of a model: `metadata.get("tag") or metadata.get("model_tag")`,
   * `None` when neither is a non-empty string.
   */
  function Tag(md: Metadata): (r: Option<string>)
    ensures r.Some? <==> NonEmptyString(md.tag) || NonEmptyString(md.modelTag)
    ensures NonEmptyString(md.tag) ==> r == md.tag
    ensures r.Some? ==> |r.value| > 0 && (r == md.tag || r == md.modelTag)
  {
    if NonEmptyString(md.tag) then md.tag
    else if NonEmptyString(md.modelTag) then md.modelTag
    else None
  }
}
