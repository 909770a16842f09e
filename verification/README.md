# The DTaaS prediction service, modelled in Dafny

This project models the prediction-serving core of the TwinRAN digital-twin AI
service. That service is a Flask application. It loads pickled regressors
together with their JSON metadata and serves several requests; two of them
are modelled here:

- `POST /predict` with a model tag and a flat `feature_name -> value` object.
- `GET /schema` with an optional model tag; the answer lists the model's
  feature names and gives an example request.

The core is the pipeline that turns a feature object into the estimator's
input vector:

1. Split the declared feature names into `DL_hist_*` window features,
   `noise_*` features and the rest.
2. Order the window features by the integer that ends each name.
3. Divide the window values by a per-request base (the window mean, the
   last value in suffix order, or 1).
4. Min-max scale the noise magnitudes into [0, 1].
5. Call the estimator, then multiply its answer by the same base.

Around the pipeline sit the route handlers, with their cascade of request
checks and the status codes those checks answer with. The model registry
builds its tag-to-model map from a directory walk.

| file | module | source it models |
|---|---|---|
| `common.dfy` | `Common` | `Option`/`Result` wrappers and sequence facts (`[k for k in keys if k not in m]`) |
| `text.dfy` | `Text` | `str.startswith`, `s.split("_")[-1]`, `int(s)`, `str(n)` |
| `json.dfy` | `Json` | decoded JSON values, truthiness, `float(v)`, `dict.get` |
| `metadata.dfy` | `ModelMetadata` | the metadata document and the `get(...) or ...` readers |
| `split.dfy` | `FeatureSplit` | `split_indices` |
| `order.dfy` | `HistOrder` | `order_hist_positions`, including Python's stable `sorted` |
| `scaling.dfy` | `Scaling` | `compute_window_base`, `scale_noise_abs_db` |
| `pipeline.dfy` | `Pipeline` | `predict_with_model` |
| `registry.dfy` | `Registry` | `load_models` |
| `routes.dfy` | `Routes` | the `predict()` and `schema()` handlers |
| `scenario.dfy` | `Scenario` | one worked request through the whole pipeline |

Each exception the source raises or catches becomes an error value:
`PipelineError` for `predict_with_model` and `RouteError` for the handlers.
`Routes.Predict` maps every error to the status the handler answers with.

Arithmetic is over Dafny's exact `real`. The estimator is an uninterpreted
function `seq<real> -> Option<real>`, where `None` means `predict` raised.
Python's `float()` on a string is a parameter `parseFloat`.

A note on window order: the window is ordered by ascending name suffix. The
source's docstring says this runs oldest to newest for suffixes 0..W-1. For the
`DL_hist_t_minus_k` names that the route examples use, ascending order puts
`t_minus_0` first. `window_anchor` then anchors on the largest `k`. The model
follows the code, and it proves the sort order only in general terms
(`HistOrder.OrderHistPositions`).

## Model

| member | source | states |
|---|---|---|
| Text.LastField | ai/app/services/predict.py:21 | `name.split("_")[-1]` is a suffix of the name with no underscore in it, and an underscore precedes it unless it is the whole name |
| Text.LastFieldUnique | ai/app/services/predict.py:21 | exactly one such underscore-free suffix exists, so the last field is fully determined |
| Text.LastFieldAfterUnderscore | ai/app/services/predict.py:21 | whatever precedes the last underscore, the last field of `a + "_" + b` is `b` |
| Text.DigitsOfFormatNat | ai/app/services/predict.py:21 | the decimal digits of `n` read back as `n` |
| Text.ParseIntFormatRoundTrip | ai/app/services/predict.py:21 | `int(str(n)) == n` and `int("-" + str(n)) == -n` |
| Text.ParseIntRejects | ai/app/services/predict.py:20-24 | `int()` raises on the empty string and on any non-digit after the sign position, so the fallback order applies |
| Text.ParseInt | ai/app/services/predict.py:21 | `int(s)` succeeds exactly on a non-empty run of ASCII digits, optionally after one `+` or `-`; a `-` gives a value at most 0, otherwise at least 0; plain digits read as their decimal value |
| Json.Truthy | ai/app/routes/predict.py:85-87 | a decoded value is falsy exactly when it is `null`, `false`, `0`, `""`, `[]` or `{}` |
| Json.ToFloat | ai/app/routes/predict.py:116 | `float(v)` succeeds exactly on numbers, booleans and strings the float parser accepts; numbers keep their value, booleans give 1.0/0.0 |
| Common.AbsentMembers | ai/app/routes/predict.py:108-110 | a name is reported missing exactly when it is required and absent; the list is empty exactly when every required name is present |
| Common.AbsentAppend | ai/app/routes/predict.py:108 | the missing-name filter distributes over concatenation, so the missing names keep the required order |
| ModelMetadata.FeatureNames | ai/app/services/predict.py:83-85 | `feature_names` when it is non-empty, else `feature_names_in` when that is non-empty; the result is empty exactly when both are missing or empty |
| ModelMetadata.WindowSize | ai/app/services/predict.py:87 | the declared `window_size`, 0 when the key is absent |
| ModelMetadata.WindowScaleMode | ai/app/services/predict.py:92-93 | the `scaling` block's mode wins, then the top-level `window_scale_mode`, then `window_mean` |
| ModelMetadata.NoiseConfig | ai/app/services/predict.py:92-94 | the `scaling` block's `noise_scaling` wins, then the top-level one, then `{min_abs_db: 50, max_abs_db: 150}` |
| ModelMetadata.MinAbsDb | ai/app/services/predict.py:95 | `min_abs_db` of the noise block in force, 50.0 when that block lacks it |
| ModelMetadata.MaxAbsDb | ai/app/services/predict.py:96 | `max_abs_db` of the noise block in force, 150.0 when that block lacks it |
| ModelMetadata.DefaultScaling | ai/app/services/predict.py:91-98 | metadata configuring no scaling gets mode `window_mean` and the range [50, 150], which passes the range check |
| ModelMetadata.ScalingBlockOverrides | ai/app/services/predict.py:92-96 | when the `scaling` block declares both the mode and the noise block, the top-level keys do not affect mode or range |
| ModelMetadata.Tag | ai/app/services/model_registry.py:24-26 | a model has a key exactly when `tag` or `model_tag` is a non-empty string, and `tag` wins |
| FeatureSplit.Matching | ai/app/services/predict.py:9-10 | the positions are ascending and in range, and a position is listed exactly when its name has the prefix |
| FeatureSplit.Excluding | ai/app/services/predict.py:11 | the positions are ascending and below `n`, and a position is listed exactly when it is not excluded |
| FeatureSplit.SplitIndices | ai/app/services/predict.py:7-12 | the three lists partition the positions, each ascending; history iff the name starts with `DL_hist_`, noise iff it starts with `noise_`, other iff neither |
| FeatureSplit.PrefixesExclusive | ai/app/services/predict.py:9-10 | no name carries both prefixes, so history and noise never overlap |
| HistOrder.SuffixKeyOfNumberedName | ai/app/services/predict.py:21 | any name ending in `_` and a decimal `n` sorts under key `n`, whatever its stem |
| HistOrder.SortPermutes | ai/app/services/predict.py:21-22 | the stable sort is a permutation of its input |
| HistOrder.SortSorted | ai/app/services/predict.py:21-22 | the sort's output is ordered by key |
| HistOrder.SortStable | ai/app/services/predict.py:21-22 | positions with equal keys keep their ascending input order, as Python's `sorted` keeps them |
| HistOrder.SortDistinct | ai/app/services/predict.py:21-22 | sorting distinct positions gives distinct positions |
| HistOrder.SortKeepsSorted | ai/app/services/predict.py:21-22 | input that is already ordered by key is returned unchanged |
| HistOrder.OrderHistPositions | ai/app/services/predict.py:15-24 | the result is a permutation of the positions; if every suffix parses it is sorted by suffix, with ties in position order; otherwise it is the input unchanged |
| HistOrder.OrderKeepsOrdered | ai/app/services/predict.py:15-24 | positions already in suffix order come back as given |
| HistOrder.OrderIdempotent | ai/app/services/predict.py:15-24 | ordering the ordered positions again changes nothing |
| Scaling.ComputeWindowBase | ai/app/services/predict.py:27-37 | the three modes give mean, last value in suffix order or 1, never below 1e-8; any other mode raises, naming the mode |
| Scaling.WindowMeanNormalizes | ai/app/services/predict.py:29-37 | when the window mean is at least 1e-8 it is the base, and the scaled window then has mean exactly 1 |
| Scaling.WindowAnchorNormalizes | ai/app/services/predict.py:31-37 | when the last value in suffix order is at least 1e-8 it is the base, and it scales to exactly 1 |
| Scaling.ScaleRoundTrip | ai/app/services/predict.py:129-157 | dividing by an accepted base and multiplying back is the identity, in both orders |
| Scaling.ScaleNoiseAbsDb | ai/app/services/predict.py:40-43 | the result lies in [0, 1]; it is 0 at or below `vmin` and 1 at or above `vmax` |
| Scaling.NoiseDependsOnMagnitude | ai/app/services/predict.py:42 | only the magnitude matters: `-v` and `v` scale alike |
| Scaling.NoiseMonotone | ai/app/services/predict.py:40-43 | a larger magnitude never scales lower |
| Scaling.NoiseInverse | ai/app/services/predict.py:40-43 | inside `[vmin, vmax]`, mapping the scaled value back onto the range recovers the magnitude |
| Pipeline.SelectWindowIsPrefix | ai/app/services/predict.py:104-109 | both branches of the length test select the same window: the first `min(window_size, #history)` ordered positions |
| Pipeline.SelectedFacts | ai/app/services/predict.py:104-109 | the window has `min(window_size, #history)` distinct positions, all of them history positions |
| Pipeline.ReadLayout | ai/app/services/predict.py:83-109 | on success the layout keeps the declared names and the scale mode, and is consistent (partitioned names, non-empty window of distinct history positions, proper noise range) |
| Pipeline.MetadataErrors | ai/app/services/predict.py:83-103 | the four metadata errors, each if and only if its condition holds and every earlier check passed |
| Pipeline.CollectHistory | ai/app/services/predict.py:111-125 | success iff every window name is present and every value positive; all missing names are listed in window order; otherwise the error is the non-positive one |
| Pipeline.WindowBase | ai/app/services/predict.py:128 | succeeds iff the mode is known, with the base of `compute_window_base`; otherwise the error names the mode |
| Pipeline.ScaleHistory | ai/app/services/predict.py:129 | each scaled value times the base is the raw value, except in mode `none`, which leaves it unscaled |
| Pipeline.Fill | ai/app/services/predict.py:134-136 | the listed positions receive their values and every other slot is unchanged |
| Pipeline.FillNoise | ai/app/services/predict.py:138-144 | succeeds iff every noise name is present; otherwise the error names the first missing one; on success each noise slot holds its scaled magnitude and nothing else changes |
| Pipeline.FillOther | ai/app/services/predict.py:146-153 | each other slot takes the supplied value when present and otherwise keeps its value; nothing else changes |
| Pipeline.BuildVectorContents | ai/app/services/predict.py:131-153 | slot by slot, the built vector holds: a window slot's scaled value, 0 for history outside the window, scaled noise, a passed-through other value, or 0 |
| Pipeline.UnscaleInverts | ai/app/services/predict.py:157 | unscaling by an accepted base and dividing back gives the model-space value |
| Pipeline.Infer | ai/app/services/predict.py:156 | the estimator's answer is passed on, and its raising becomes the inference error |
| Pipeline.PredictFromLayout | ai/app/services/predict.py:111-165 | on success the prediction is the estimator's answer on the returned vector times a base of at least 1e-8 computed from the window; errors are only the value checks |
| Pipeline.PredictWithModel | ai/app/services/predict.py:48-165 | on success `y_pred = y_pred_scaled * base`, the base is at least 1e-8 (exactly 1 in mode `none`), the vector has one slot per declared name, and `y_pred_scaled` is the estimator's answer on it |
| Pipeline.PredictVector | ai/app/services/predict.py:127-153 | on success every window and noise name was supplied, and each slot of the returned vector is as the slot description says |
| Pipeline.PredictUnscaleInverts | ai/app/services/predict.py:156-157 | the prediction divided by the base is the model-space prediction |
| Pipeline.SlotRoundTrip | ai/app/services/predict.py:129-157 | a slot scaled by the mode's rule and then unscaled by the base gives back the raw value |
| Pipeline.PredictRoundTrip | ai/app/services/predict.py:127-157 | each window slot of the returned vector times the base gives back the raw value supplied for it |
| Pipeline.RequestErrors | ai/app/services/predict.py:111-157 | the value checks in the source's order, each error if and only if its condition holds and the earlier checks passed |
| Pipeline.HistoryErrors | ai/app/services/predict.py:111-125 | missing window names (all listed) iff some window name is absent; non-positive iff all present but one value is not positive |
| Pipeline.LaterErrors | ai/app/services/predict.py:127-157 | past the window checks: unknown mode iff the mode is unknown; missing noise iff a noise name is absent, naming the first; otherwise success or inference failure |
| Pipeline.PredictWindowScaled | ai/app/services/predict.py:127-136 | outside mode `none`, the window slots the estimator sees are exactly the raw window divided by the base |
| Pipeline.PredictWindowMean | ai/app/services/predict.py:127-136 | in mode `window_mean`, with window mean at least 1e-8, the base is that mean and the window slots average exactly 1 |
| Registry.PickleName | ai/app/services/model_registry.py:28 | the pickle's name is the tag followed by a four-character extension |
| Registry.Admit | ai/app/services/model_registry.py:20-35 | an admitted file is keyed by its own tag, its pickle sits beside it, and the entry holds exactly its metadata and unpickled model |
| Registry.AdmitCases | ai/app/services/model_registry.py:20-38 | an unreadable file, a missing tag, a missing pickle or a failing unpickle each skip the file; otherwise it is admitted |
| Registry.Step | ai/app/services/model_registry.py:35 | adding one file keeps every key equal to its entry's tag |
| Registry.Scan | ai/app/services/model_registry.py:19-38 | the walk only adds keys and keeps every key equal to its entry's tag |
| Registry.LoadModels | ai/app/services/model_registry.py:6-40 | a missing directory gives the empty registry; otherwise every key is the tag of the metadata stored under it |
| Registry.ScanConcat | ai/app/services/model_registry.py:19-38 | walking two runs of files is walking the first, then the second from its result |
| Registry.SkippedCandidateIsInvisible | ai/app/services/model_registry.py:20-38 | a skipped file leaves the registry as if it were not there, wherever it occurs |
| Registry.ScanLookup | ai/app/services/model_registry.py:19-35 | after the walk a key is held iff the last file admitted under it exists or it was there before, and the entry is that file's |
| Registry.LastWriterWins | ai/app/services/model_registry.py:19-35 | a key is present iff some file is admitted under it, and its entry is the last such file's in walk order |
| Routes.ResolveTag | ai/app/routes/predict.py:85-88 | a truthy requested tag wins, else a non-empty default name; there is no tag exactly when neither exists |
| Routes.PredictStatus | ai/app/routes/predict.py:71-131 | 415 only for a non-JSON request, 404 only for an unknown model, 400 for the client errors (invalid JSON, no model, features not an object, missing, not numeric), 500 for the server-side ones |
| Routes.Coerce | ai/app/routes/predict.py:112-118 | success iff every feature name converts; the result has exactly those names as keys with their converted values; a failure names the first name that does not convert |
| Routes.CoerceReadsOnlyNames | ai/app/routes/predict.py:112-118 | conversion reads the input only at the feature names |
| Routes.RunPipeline | ai/app/routes/predict.py:120-131 | 200 iff the pipeline succeeds, carrying its `y_pred` and the model tag; otherwise 500 carrying the pipeline's own error |
| Routes.PredictWithEntry | ai/app/routes/predict.py:97-131 | each check answers iff it is the first to fail: no feature names (500 naming the model); no non-empty features object (400); some name absent (400 listing all absent names); all present but one does not convert (400 naming the first); else the pipeline's answer on the converted values |
| Routes.PredictPayload | ai/app/routes/predict.py:84-95 | "no model specified" iff no tag resolves; an unhashable tag raises (500); 404 iff the resolved tag is hashable and not a registered name, carrying that tag; a registered name hands over to that model's checks |
| Routes.Predict | ai/app/routes/predict.py:62-131 | the status agrees with the body and is 200/400/404/415/500; 415 iff not JSON; invalid JSON iff no parsed body; registry error iff the registry is empty; a non-object body raises (500); an object body with a non-empty registry is answered by the tag and feature checks |
| Routes.PredictSuccess | ai/app/routes/predict.py:84-131 | a 200 names the resolved model, and its prediction is the pipeline's on exactly the converted feature values |
| Routes.MissingFeaturesInOrder | ai/app/routes/predict.py:107-110 | the missing-features error lists exactly the absent feature names, in feature-name order |
| Routes.NotNumericNamesFirst | ai/app/routes/predict.py:112-118 | the not-numeric error names the first feature name whose value does not convert; every earlier one converts |
| Routes.ExtraFeatureIgnoredByEntry | ai/app/routes/predict.py:102-131 | for one model, adding a key it does not declare to a non-empty features object changes nothing |
| Routes.ExtraFeaturesIgnored | ai/app/routes/predict.py:62-131 | adding a key that no model declares to a non-empty features object leaves the response unchanged |
| Routes.FalsyModelUsesDefault | ai/app/routes/predict.py:84-88 | a missing or falsy `model` behaves exactly as the default model name requested explicitly |
| Routes.RequestedModelWins | ai/app/routes/predict.py:85-86 | with a truthy `model`, the default model name does not matter |
| Routes.Schema | ai/app/routes/predict.py:202-251 | the tag is the query when non-empty, else the default name; 404 iff there is none or the registry lacks it (naming it); otherwise the body names that model, its feature names and window size, and an example whose keys are exactly the feature names with their tabled value or 0.0 |
| Routes.NumbersReachPipeline | ai/app/routes/predict.py:107-131 | an object holding one number per feature name passes every check and reaches the pipeline with exactly those numbers |
| Routes.SchemaExampleAccepted | ai/app/routes/predict.py:232-242 | when the model declares feature names, posting the schema's example back passes every request check and the answer is the pipeline's on the example values, 200 or 500; otherwise it is the 500 for missing feature names |
| Scenario.ScenarioLayout | ai/app/services/predict.py:83-109 | names `DL_hist_0..2, aux` with window 3 give the default mode and the window 0, 1, 2 |
| Scenario.ScenarioHistory | ai/app/services/predict.py:111-128 | the inputs 10, 20, 30 form the window and their mean 20 is the base |
| Scenario.ScenarioVector | ai/app/services/predict.py:129-153 | the vector is [0.5, 1.0, 1.5, 5.0]: the window divided by 20, then `aux` passed through |
| Scenario.ScenarioPrediction | ai/app/services/predict.py:48-165 | an estimator answering 1.1 on that vector gives the prediction 22.0 = 1.1 * 20 |

## Left out

- Floating point: every value is an exact `real`. Rounding, NaN and infinities are not modelled, and neither is `numpy.mean`'s summation order.
- `int()` is modelled on ASCII decimal literals with an optional sign. Python also accepts surrounding whitespace and non-ASCII digits; neither is modelled.
- `int(metadata.get("window_size", 0))` is modelled for integer values only. A non-integer `window_size` raising in `int()` is not modelled.
- Metadata keys that are present but JSON `null` are read as absent, where the source differs. A `null` `window_scale_mode` reaches `compute_window_base` as `None` and raises. A `null` `noise_scaling` fails at `.get`. A `null` `min_abs_db` or `max_abs_db` fails in `float(None)`. Each of these is a 500 in the source, where the model uses the defaults and can answer 200.
- Non-list `feature_names`, and non-string tags reaching the registry's `str(tag)`, are not modelled.
- `float(features[n])` on window, noise and other values inside `predict_with_model` cannot fail: the map holds reals. That makes the "DL_hist_* values must be numeric" and "Feature must be numeric" branches (ai/app/services/predict.py:121-122 and 150-153) unreachable, as they are when called from the route.
- Scaling.ScaleNoiseAbsDb: requires `vmax != vmin`, where Python would raise ZeroDivisionError. The pipeline only calls it after checking `vmax > vmin`.
- Python's `float()` on strings is the parameter `parseFloat`. The estimator and unpickling are uninterpreted too.
- The file system: `rglob("*.json")` and its order are given as the sequence of candidates. Reading and parsing a file, and unpickling, are given as each candidate's outcomes.
- Request logging (ai/app/routes/predict.py:63-68), the logger calls, the JSON key order of responses and the exact error-message text. Errors are modelled by kind and payload.
- The Flask app wiring, `meta.py`, the schemas and the configuration are not part of this model.
- A payload that is JSON but not an object, or a `model` value that is a non-empty list or object, is modelled as an `Unhandled` 500. In the source these raise out of the handler and the framework answers 500.
- Routes.Schema: the query parameter is modelled as a string, as Flask delivers it. The registry lookup therefore cannot meet an unhashable tag.
