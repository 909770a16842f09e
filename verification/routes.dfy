/**
 * The two HTTP handlers of the prediction service, `POST /predict` and
 * `GET /schema`, as functions from the application state and the request to
 * the response. The application state is the model registry and the default
 * model name the service was started with; the request is the JSON-content
 * flag and the decoded body (`None` when it does not parse).
 */
module Routes {
  import opened Common
  import opened Json
  import opened ModelMetadata
  import opened Pipeline
  import opened Registry

  datatype App = App(models: map<string, Entry<Estimator>>, defaultModel: Option<string>)

  datatype Request = Request(isJson: bool, body: Option<JsonValue>)

  /** What an error response reports (its `error` message, by kind). */
  datatype RouteError =
    | NotJson
    | InvalidJson
    | RegistryNotInitialized
    | NoModelSpecified
    | ModelNotFound(tag: JsonValue)
    | ModelHasNoFeatureNames(modelTag: string)
    | FeaturesNotObject
    | MissingFeatures(missing: seq<string>)
    | NotNumeric(failedAt: string)
    | PredictionFailed(cause: PipelineError)
    /** An exception the handler does not catch, which the framework answers with 500. */
    | Unhandled

  /** The `example_request` of the schema: a body `POST /predict` accepts. */
  datatype ExampleRequest = ExampleRequest(model: string, features: map<string, real>)

  datatype Body =
    | ErrorBody(error: RouteError)
    | PredictionBody(prediction: real, modelTag: string)
    | SchemaBody(modelTag: string, windowSize: int, featureNames: seq<string>, example: ExampleRequest)

  datatype Response = Response(status: int, body: Body)

  /** The status `POST /predict` answers each error with. */
  function PredictStatus(e: RouteError): (r: int)
    ensures r == 415 <==> e == NotJson
    ensures r == 404 <==> e.ModelNotFound?
    ensures r == 400 <==> (e == InvalidJson || e == NoModelSpecified || e == FeaturesNotObject
                           || e.MissingFeatures? || e.NotNumeric?)
    ensures r == 500 <==> (e == RegistryNotInitialized || e.ModelHasNoFeatureNames? || e.PredictionFailed? || e == Unhandled)
  {
    match e
    case NotJson => 415
    case InvalidJson => 400
    case RegistryNotInitialized => 500
    case NoModelSpecified => 400
    case ModelNotFound(_) => 404
    case ModelHasNoFeatureNames(_) => 500
    case FeaturesNotObject => 400
    case MissingFeatures(_) => 400
    case NotNumeric(_) => 400
    case PredictionFailed(_) => 500
    case Unhandled => 500
  }

  /**
   * `requested or default`: a truthy requested tag wins, otherwise the default
   * model name when it is non-empty, otherwise nothing.
   */
  function ResolveTag(requested: JsonValue, default: Option<string>): (r: Option<JsonValue>)
    ensures r.Some? <==> Truthy(requested) || NonEmptyString(default)
    ensures r.Some? ==> Truthy(r.value)
    ensures Truthy(requested) ==> r == Some(requested)
    ensures !Truthy(requested) && NonEmptyString(default) ==> r == Some(JStr(default.value))
  {
    if Truthy(requested) then Some(requested)
    else if NonEmptyString(default) then Some(JStr(default.value))
    else None
  }

  /**
   * The coercion loop of `predict()`: `float(features[fn])` for every feature name in order; the
   * first name whose value does not convert is reported. On success the result
   * has exactly the feature names as keys, each holding its converted value,
   * so keys of the input outside the feature names are dropped.
   */
  function Coerce(names: seq<string>, fields: map<string, JsonValue>, parseFloat: string -> Option<real>)
    : (r: Result<map<string, real>, string>)
    requires forall i :: 0 <= i < |names| ==> names[i] in fields
    ensures r.Ok? <==> forall i :: 0 <= i < |names| ==> ToFloat(fields[names[i]], parseFloat).Some?
    ensures r.Ok? ==> r.value.Keys == Elements(names)
    ensures r.Ok? ==> forall n :: n in r.value ==> n in fields && ToFloat(fields[n], parseFloat) == Some(r.value[n])
    ensures r.Err? ==> exists i :: (0 <= i < |names| && names[i] == r.error
      && ToFloat(fields[names[i]], parseFloat).None?
      && forall j :: 0 <= j < i ==> ToFloat(fields[names[j]], parseFloat).Some?)
    decreases |names|
  {
    if |names| == 0 then Ok(map[])
    else
      match ToFloat(fields[names[0]], parseFloat)
      case None => Err(names[0])
      case Some(x) =>
        var rest :- Coerce(names[1..], fields, parseFloat);
        Ok(rest[names[0] := x])
  }

  /** Coercion reads the input only at the feature names. */
  lemma {:induction false} CoerceReadsOnlyNames(names: seq<string>, f: map<string, JsonValue>, g: map<string, JsonValue>,
                                               parseFloat: string -> Option<real>)
    requires forall i :: 0 <= i < |names| ==> names[i] in f && names[i] in g && f[names[i]] == g[names[i]]
    ensures Coerce(names, f, parseFloat) == Coerce(names, g, parseFloat)
    decreases |names|
  {
    if |names| > 0 {
      CoerceReadsOnlyNames(names[1..], f, g, parseFloat);
    }
  }

  /** A response of `POST /predict`: a prediction with 200, or an error with its status. */
  ghost predicate WellFormed(r: Response) {
    (r.status == 200 <==> r.body.PredictionBody?)
    && (r.body.ErrorBody? <==> !r.body.PredictionBody?)
    && (r.body.ErrorBody? ==> r.status == PredictStatus(r.body.error))
  }

  /**
   * The last step of `predict()`: the prediction on the converted features; a failing
   * pipeline answers 500, a successful one 200 with the unscaled prediction.
   */
  function RunPipeline(key: string, entry: Entry<Estimator>, coerced: map<string, real>): (r: Response)
    ensures WellFormed(r)
    ensures r.body.PredictionBody? ==> r.body.modelTag == key
    ensures r.body.ErrorBody? ==> r.body.error.PredictionFailed?
    ensures r.status == 200 <==> PredictWithModel(entry.model, entry.metadata, coerced).Ok?
    ensures var p := PredictWithModel(entry.model, entry.metadata, coerced);
      && (p.Ok? ==> r.body.prediction == p.value.yPred)
      && (p.Err? ==> r.body.error == PredictionFailed(p.error))
  {
    match PredictWithModel(entry.model, entry.metadata, coerced)
    case Err(e) => Response(500, ErrorBody(PredictionFailed(e)))
    case Ok(p) => Response(200, PredictionBody(p.yPred, key))
  }

  /** `features` is a non-empty object (`isinstance(features, dict) and features`). */
  ghost predicate ObjectGiven(features: JsonValue) {
    features.JObject? && |features.fields| > 0
  }

  /** Every feature name is a key of the features object. */
  ghost predicate AllPresent(names: seq<string>, features: JsonValue)
    requires features.JObject?
  {
    forall i :: 0 <= i < |names| ==> names[i] in features.fields
  }

  /**
   * `predict()` once the model entry is known: the checks on the feature
   * names, the features object, missing features, numeric values, then the pipeline.
   */
  function PredictWithEntry(key: string, entry: Entry<Estimator>, features: JsonValue,
                            parseFloat: string -> Option<real>): (r: Response)
    ensures WellFormed(r)
    ensures r.body.PredictionBody? ==> r.body.modelTag == key
    ensures r.body == ErrorBody(ModelHasNoFeatureNames(key)) <==> |FeatureNames(entry.metadata)| == 0
    ensures r.body == ErrorBody(FeaturesNotObject) <==>
      |FeatureNames(entry.metadata)| > 0 && !(features.JObject? && |features.fields| > 0)
    ensures r.body.ErrorBody? ==> (r.body.error.ModelHasNoFeatureNames? || r.body.error == FeaturesNotObject
      || r.body.error.MissingFeatures? || r.body.error.NotNumeric? || r.body.error.PredictionFailed?)
    ensures var names := FeatureNames(entry.metadata);
      r.body.ErrorBody? && r.body.error.MissingFeatures? <==>
        |names| > 0 && ObjectGiven(features) && |Absent(names, features.fields)| > 0
    ensures r.body.ErrorBody? && r.body.error.MissingFeatures? ==>
      features.JObject? && r.body.error.missing == Absent(FeatureNames(entry.metadata), features.fields)
    ensures var names := FeatureNames(entry.metadata);
      r.body.ErrorBody? && r.body.error.NotNumeric? <==>
        |names| > 0 && ObjectGiven(features) && AllPresent(names, features)
        && Coerce(names, features.fields, parseFloat).Err?
    ensures var names := FeatureNames(entry.metadata);
      |names| > 0 && ObjectGiven(features) && AllPresent(names, features) ==>
        match Coerce(names, features.fields, parseFloat)
        case Err(failedAt) => r.body == ErrorBody(NotNumeric(failedAt))
        case Ok(coerced) => r == RunPipeline(key, entry, coerced)
  {
    var names := FeatureNames(entry.metadata);
    if |names| == 0 then Response(500, ErrorBody(ModelHasNoFeatureNames(key)))
    else if !features.JObject? || |features.fields| == 0 then Response(400, ErrorBody(FeaturesNotObject))
    else
      var missing := Absent(names, features.fields);
      AbsentMembers(names, features.fields);
      if |missing| > 0 then Response(400, ErrorBody(MissingFeatures(missing)))
      else
        match Coerce(names, features.fields, parseFloat)
        case Err(failedAt) => Response(400, ErrorBody(NotNumeric(failedAt)))
        case Ok(coerced) => RunPipeline(key, entry, coerced)
  }

  /**
   * `predict()` on an object payload: the tag resolves (a truthy `model` field, else the default
   * name) and names a registered model; a list or object tag cannot be looked
   * up at all and the lookup raises.
   */
  function PredictPayload(app: App, payload: map<string, JsonValue>, parseFloat: string -> Option<real>): (r: Response)
    ensures WellFormed(r)
    ensures r.body.PredictionBody? ==> r.body.modelTag in app.models
    ensures r.body == ErrorBody(NoModelSpecified) <==> ResolveTag(Field(payload, "model"), app.defaultModel).None?
    ensures r.body.ErrorBody? && r.body.error.ModelNotFound? ==>
      Some(r.body.error.tag) == ResolveTag(Field(payload, "model"), app.defaultModel)
      && Hashable(r.body.error.tag) && !(r.body.error.tag.JStr? && r.body.error.tag.s in app.models)
    ensures var t := ResolveTag(Field(payload, "model"), app.defaultModel);
      r.status == 404 <==> t.Some? && Hashable(t.value) && !(t.value.JStr? && t.value.s in app.models)
    ensures var t := ResolveTag(Field(payload, "model"), app.defaultModel);
      r.body == ErrorBody(Unhandled) <==> t.Some? && !Hashable(t.value)
    ensures var t := ResolveTag(Field(payload, "model"), app.defaultModel);
      t.Some? && t.value.JStr? && t.value.s in app.models ==>
        r == PredictWithEntry(t.value.s, app.models[t.value.s], Field(payload, "features"), parseFloat)
  {
    match ResolveTag(Field(payload, "model"), app.defaultModel)
    case None => Response(400, ErrorBody(NoModelSpecified))
    case Some(tag) =>
      if !Hashable(tag) then Response(500, ErrorBody(Unhandled))
      else if !(tag.JStr? && tag.s in app.models) then Response(404, ErrorBody(ModelNotFound(tag)))
      else PredictWithEntry(tag.s, app.models[tag.s], Field(payload, "features"), parseFloat)
  }

  /**
   * `predict()`, the handler of `POST /predict`. The checks run in order (content type, body,
   * registry, tag, model, feature names, features object, missing features,
   * numeric values, prediction) and the first that fails answers.
   */
  function Predict(app: App, req: Request, parseFloat: string -> Option<real>): (r: Response)
    ensures WellFormed(r)
    ensures r.status == 200 || r.status == 400 || r.status == 404 || r.status == 415 || r.status == 500
    ensures r.status == 415 <==> !req.isJson
    ensures r.body == ErrorBody(InvalidJson) <==> req.isJson && (req.body.None? || req.body.value.JNull?)
    ensures r.body == ErrorBody(RegistryNotInitialized) <==>
      req.isJson && req.body.Some? && !req.body.value.JNull? && |app.models| == 0
    ensures r.body.PredictionBody? ==> r.body.modelTag in app.models
    ensures req.isJson && req.body.Some? && |app.models| > 0 && !req.body.value.JNull? && !req.body.value.JObject?
      ==> r.body == ErrorBody(Unhandled)
    ensures ObjectPayload(req) && |app.models| > 0 ==> r == PredictPayload(app, req.body.value.fields, parseFloat)
  {
    if !req.isJson then Response(415, ErrorBody(NotJson))
    else if req.body.None? || req.body.value.JNull? then Response(400, ErrorBody(InvalidJson))
    else if |app.models| == 0 then Response(500, ErrorBody(RegistryNotInitialized))
    else if !req.body.value.JObject? then Response(500, ErrorBody(Unhandled))
    else PredictPayload(app, req.body.value.fields, parseFloat)
  }

  /** The decoded body of a request with a JSON object as payload. */
  ghost predicate ObjectPayload(req: Request) {
    req.isJson && req.body.Some? && req.body.value.JObject?
  }

  /**
   * A successful prediction names the model the tag resolved to and is the
   * pipeline's result on exactly the converted feature values.
   */
  lemma PredictSuccess(app: App, req: Request, parseFloat: string -> Option<real>)
    requires Predict(app, req, parseFloat).status == 200
    ensures ObjectPayload(req) && |app.models| > 0
    ensures var payload := req.body.value.fields; var r := Predict(app, req, parseFloat);
      && ResolveTag(Field(payload, "model"), app.defaultModel) == Some(JStr(r.body.modelTag))
      && Field(payload, "features").JObject?
      && var entry := app.models[r.body.modelTag]; var fields := Field(payload, "features").fields;
         && (forall i :: 0 <= i < |FeatureNames(entry.metadata)| ==> FeatureNames(entry.metadata)[i] in fields)
         && Coerce(FeatureNames(entry.metadata), fields, parseFloat).Ok?
         && var p := PredictWithModel(entry.model, entry.metadata, Coerce(FeatureNames(entry.metadata), fields, parseFloat).value);
            p.Ok? && r.body.prediction == p.value.yPred
  {
    var payload := req.body.value.fields;
    var tag := ResolveTag(Field(payload, "model"), app.defaultModel).value;
    AbsentMembers(FeatureNames(app.models[tag.s].metadata), Field(payload, "features").fields);
  }

  /**
   * In `predict()`, the missing-features error lists exactly the feature names
   * the input lacks, in feature-name order.
   */
  lemma MissingFeaturesInOrder(app: App, req: Request, parseFloat: string -> Option<real>)
    requires Predict(app, req, parseFloat).body.ErrorBody?
    requires Predict(app, req, parseFloat).body.error.MissingFeatures?
    ensures ObjectPayload(req)
    ensures var payload := req.body.value.fields; var tag := ResolveTag(Field(payload, "model"), app.defaultModel);
      && tag.Some? && tag.value.JStr? && tag.value.s in app.models
      && Field(payload, "features").JObject?
      && var names := FeatureNames(app.models[tag.value.s].metadata); var fields := Field(payload, "features").fields;
         var missing := Predict(app, req, parseFloat).body.error.missing;
         && missing == Absent(names, fields) && |missing| > 0
         && forall n :: n in missing <==> n in names && n !in fields
  {
    var payload := req.body.value.fields;
    var tag := ResolveTag(Field(payload, "model"), app.defaultModel).value;
    AbsentMembers(FeatureNames(app.models[tag.s].metadata), Field(payload, "features").fields);
  }

  /**
   * In `predict()`, the not-numeric error names the first feature name, in
   * feature-name order, whose value does not convert; every earlier one did.
   */
  lemma NotNumericNamesFirst(app: App, req: Request, parseFloat: string -> Option<real>)
    requires Predict(app, req, parseFloat).body.ErrorBody?
    requires Predict(app, req, parseFloat).body.error.NotNumeric?
    ensures ObjectPayload(req)
    ensures var payload := req.body.value.fields; var tag := ResolveTag(Field(payload, "model"), app.defaultModel);
      && tag.Some? && tag.value.JStr? && tag.value.s in app.models
      && Field(payload, "features").JObject?
      && var names := FeatureNames(app.models[tag.value.s].metadata); var fields := Field(payload, "features").fields;
         var failedAt := Predict(app, req, parseFloat).body.error.failedAt;
         && (forall i :: 0 <= i < |names| ==> names[i] in fields)
         && exists i :: (0 <= i < |names| && names[i] == failedAt
           && ToFloat(fields[failedAt], parseFloat).None?
           && forall j :: 0 <= j < i ==> ToFloat(fields[names[j]], parseFloat).Some?)
  {
    var payload := req.body.value.fields;
    var tag := ResolveTag(Field(payload, "model"), app.defaultModel).value;
    AbsentMembers(FeatureNames(app.models[tag.s].metadata), Field(payload, "features").fields);
  }

  /** The request with its payload's `features` object replaced. */
  function WithFeatures(req: Request, features: map<string, JsonValue>): (r: Request)
    requires req.body.Some? && req.body.value.JObject?
    ensures r.isJson == req.isJson && r.body.Some? && r.body.value.JObject?
    ensures Field(r.body.value.fields, "features") == JObject(features)
    ensures forall k :: k != "features" ==> Field(r.body.value.fields, k) == Field(req.body.value.fields, k)
  {
    req.(body := Some(JObject(req.body.value.fields["features" := JObject(features)])))
  }

  /** For one model, a feature key it does not declare changes nothing. */
  lemma ExtraFeatureIgnoredByEntry(key: string, entry: Entry<Estimator>, parseFloat: string -> Option<real>,
                                   features: map<string, JsonValue>, k: string, v: JsonValue)
    requires |features| > 0 && k !in FeatureNames(entry.metadata)
    ensures PredictWithEntry(key, entry, JObject(features[k := v]), parseFloat)
      == PredictWithEntry(key, entry, JObject(features), parseFloat)
  {
    var names := FeatureNames(entry.metadata);
    var g := features[k := v];
    assert |g| > 0 by {
      var k0 :| k0 in features;
      assert k0 in g;
    }
    assert forall i :: 0 <= i < |names| ==> names[i] != k;
    AbsentAgree(names, features, g);
    AbsentMembers(names, features);
    if |names| > 0 && |Absent(names, features)| == 0 {
      CoerceReadsOnlyNames(names, features, g, parseFloat);
    }
  }

  /**
   * A non-empty features object may carry keys no model declares: adding one
   * changes nothing in the response.
   */
  lemma ExtraFeaturesIgnored(app: App, req: Request, parseFloat: string -> Option<real>,
                             features: map<string, JsonValue>, k: string, v: JsonValue)
    requires ObjectPayload(req) && Field(req.body.value.fields, "features") == JObject(features)
    requires |features| > 0
    requires forall key :: key in app.models ==> k !in FeatureNames(app.models[key].metadata)
    ensures Predict(app, WithFeatures(req, features[k := v]), parseFloat) == Predict(app, req, parseFloat)
  {
    var req' := WithFeatures(req, features[k := v]);
    var payload := req.body.value.fields;
    var payload' := req'.body.value.fields;
    assert Field(payload', "model") == Field(payload, "model");
    assert Field(payload', "features") == JObject(features[k := v]);
    var tag := ResolveTag(Field(payload, "model"), app.defaultModel);
    if |app.models| > 0 && tag.Some? && Hashable(tag.value) && tag.value.JStr? && tag.value.s in app.models {
      ExtraFeatureIgnoredByEntry(tag.value.s, app.models[tag.value.s], parseFloat, features, k, v);
    }
  }

  /** Two maps that agree on which of `keys` they hold report the same absent keys. */
  lemma {:induction false} AbsentAgree<V>(keys: seq<string>, f: map<string, V>, g: map<string, V>)
    requires forall i :: 0 <= i < |keys| ==> (keys[i] in f <==> keys[i] in g)
    ensures Absent(keys, f) == Absent(keys, g)
    decreases |keys|
  {
    if |keys| > 0 {
      AbsentAgree(keys[..|keys| - 1], f, g);
    }
  }

  /**
   * In `predict()`, a missing or falsy `model` field behaves exactly as if the
   * default model name had been requested.
   */
  lemma FalsyModelUsesDefault(app: App, req: Request, parseFloat: string -> Option<real>)
    requires ObjectPayload(req) && !Truthy(Field(req.body.value.fields, "model"))
    requires NonEmptyString(app.defaultModel)
    ensures var explicit := req.(body := Some(JObject(req.body.value.fields["model" := JStr(app.defaultModel.value)])));
      Predict(app, req, parseFloat) == Predict(app, explicit, parseFloat)
  {
    var explicit := req.(body := Some(JObject(req.body.value.fields["model" := JStr(app.defaultModel.value)])));
    assert Field(explicit.body.value.fields, "features") == Field(req.body.value.fields, "features");
  }

  /** In `predict()`, a truthy `model` field is used whatever the default model is. */
  lemma RequestedModelWins(app: App, req: Request, parseFloat: string -> Option<real>, default: Option<string>)
    requires ObjectPayload(req) && Truthy(Field(req.body.value.fields, "model"))
    ensures Predict(app.(defaultModel := default), req, parseFloat) == Predict(app, req, parseFloat)
  {
  }

  /** The example values the schema fills in for the feature names it knows. */
  const ExampleData: map<string, real> := map[
    "DL_hist_t_minus_6" := 5972.43,
    "DL_hist_t_minus_5" := 5676.08,
    "DL_hist_t_minus_4" := 6051.62,
    "DL_hist_t_minus_3" := 6071.67,
    "DL_hist_t_minus_2" := 5784.66,
    "DL_hist_t_minus_1" := 6240.32,
    "DL_hist_t_minus_0" := 5695.44,
    "noise_target" := -100.0,
    "noise_other_1" := -110.0
  ]

  /** The example value of one feature name: its tabled value, else 0.0. */
  function ExampleValue(name: string): real {
    if name in ExampleData then ExampleData[name] else 0.0
  }

  /**
   * `schema()`, the handler of `GET /schema?model=...`. The tag is the query parameter
   * when non-empty, else the default model name; without one, or for a tag the
   * registry lacks, the answer is 404. Otherwise the body describes the model
   * and gives an example request with exactly its feature names.
   */
  function Schema(app: App, query: Option<string>): (r: Response)
    ensures r.status == 200 || r.status == 404
    ensures r.status == 200 <==> r.body.SchemaBody?
    ensures r.status == 404 <==> r.body.ErrorBody?
    ensures r.body.ErrorBody? ==> r.body.error == NoModelSpecified || r.body.error.ModelNotFound?
    ensures r.body == ErrorBody(NoModelSpecified) <==> !NonEmptyString(query) && !NonEmptyString(app.defaultModel)
    ensures r.body.SchemaBody? ==> Some(r.body.modelTag) == (if NonEmptyString(query) then query else app.defaultModel)
    ensures var t := if NonEmptyString(query) then query else app.defaultModel;
      r.status == 404 <==> !NonEmptyString(t) || t.value !in app.models
    ensures var t := if NonEmptyString(query) then query else app.defaultModel;
      r.body.ErrorBody? && r.body.error.ModelNotFound? ==> r.body.error.tag == JStr(t.value)
    ensures r.body.SchemaBody? ==>
      var b := r.body;
      && b.modelTag in app.models && |b.modelTag| > 0
      && b.featureNames == FeatureNames(app.models[b.modelTag].metadata)
      && b.windowSize == WindowSize(app.models[b.modelTag].metadata)
      && b.example.model == b.modelTag
      && (forall n :: n in b.example.features <==> n in b.featureNames)
      && (forall n :: n in b.example.features ==> b.example.features[n] == ExampleValue(n))
  {
    var tag := if NonEmptyString(query) then query else app.defaultModel;
    if !NonEmptyString(tag) then Response(404, ErrorBody(NoModelSpecified))
    else if tag.value !in app.models then Response(404, ErrorBody(ModelNotFound(JStr(tag.value))))
    else
      var md := app.models[tag.value].metadata;
      var names := FeatureNames(md);
      var example := map n | n in Elements(names) :: ExampleValue(n);
      Response(200, SchemaBody(tag.value, WindowSize(md), names, ExampleRequest(tag.value, example)))
  }

  /** A features object holding the given numbers. */
  function NumberObject(values: map<string, real>): (r: JsonValue)
    ensures r.JObject? && r.fields.Keys == values.Keys
    ensures forall n :: n in values ==> r.fields[n] == JNum(values[n])
  {
    JObject(map n | n in values :: JNum(values[n]))
  }

  /** The example request as the JSON body a client would post. */
  function ExampleJson(ex: ExampleRequest): (r: JsonValue)
    ensures r.JObject? && Field(r.fields, "model") == JStr(ex.model)
    ensures Field(r.fields, "features") == NumberObject(ex.features)
  {
    JObject(map["model" := JStr(ex.model), "features" := NumberObject(ex.features)])
  }

  /**
   * A features object holding a number for each feature name and nothing
   * else passes every feature check and reaches the pipeline with exactly
   * those numbers.
   */
  lemma NumbersReachPipeline(key: string, entry: Entry<Estimator>, values: map<string, real>,
                             parseFloat: string -> Option<real>)
    requires |FeatureNames(entry.metadata)| > 0 && values.Keys == Elements(FeatureNames(entry.metadata))
    ensures PredictWithEntry(key, entry, NumberObject(values), parseFloat) == RunPipeline(key, entry, values)
  {
    var names := FeatureNames(entry.metadata);
    var fields := NumberObject(values).fields;
    assert names[0] in fields;
    AbsentMembers(names, fields);
    CoerceNumbers(names, values, parseFloat);
  }

  /** Coercing an object of numbers over exactly its keys gives back the numbers. */
  lemma CoerceNumbers(names: seq<string>, values: map<string, real>, parseFloat: string -> Option<real>)
    requires values.Keys == Elements(names)
    ensures forall i :: 0 <= i < |names| ==> names[i] in NumberObject(values).fields
    ensures Coerce(names, NumberObject(values).fields, parseFloat) == Ok(values)
  {
    var fields := NumberObject(values).fields;
    assert forall i :: 0 <= i < |names| ==> names[i] in fields;
    var c := Coerce(names, fields, parseFloat);
    assert c.value.Keys == values.Keys;
    assert c.value == values;
  }

  /**
   * Posting the schema's example request back to `POST /predict` passes every
   * request check: the answer is the pipeline's on exactly the example values,
   * so it is 200 or a 500 from the pipeline (or from the model having no
   * feature names).
   */
  lemma SchemaExampleAccepted(app: App, query: Option<string>, parseFloat: string -> Option<real>)
    requires Schema(app, query).status == 200
    ensures var b := Schema(app, query).body; var entry := app.models[b.modelTag];
      var r := Predict(app, Request(true, Some(ExampleJson(b.example))), parseFloat);
      && (r.status == 200 || r.status == 500)
      && (|b.featureNames| == 0 ==> r.body == ErrorBody(ModelHasNoFeatureNames(b.modelTag)))
      && (|b.featureNames| > 0 ==> r == RunPipeline(b.modelTag, entry, b.example.features))
  {
    var b := Schema(app, query).body;
    var req := Request(true, Some(ExampleJson(b.example)));
    var payload := req.body.value.fields;
    assert ResolveTag(Field(payload, "model"), app.defaultModel) == Some(JStr(b.modelTag));
    assert Predict(app, req, parseFloat) == PredictWithEntry(b.modelTag, app.models[b.modelTag], NumberObject(b.example.features), parseFloat);
    if |b.featureNames| > 0 {
      assert b.example.features.Keys == Elements(b.featureNames);
      NumbersReachPipeline(b.modelTag, app.models[b.modelTag], b.example.features, parseFloat);
    }
  }
}
