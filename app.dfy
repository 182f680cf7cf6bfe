/**
 * The prediction server of `app.py`: the model loaded once at start-up, the
 * validation and row construction of `predict()`, and the table of
 * `crop_info()`. Flask routing, JSON encoding and the fitted pipeline are
 * outside this model: a request body is a parsed JSON value, or none when
 * it is not JSON; the pipeline is a parameter `Regressor`.
 */
module App {
  import opened Wrappers
  import opened Frames
  import Cleaning
  import AdaptData
  import RetrainModel
  import VerifyData
  import Text

  /** A JSON value, as Flask's `request.json` parses it. */
  datatype Value =
    | Number(x: real)
    | Str(s: string)
    | Bool(b: bool)
    | Null
    | Array(items: seq<Value>)
    | Object(fields: map<string, Value>)

  /**
   * The fitted pipeline's `predict` on a one-row frame given as (column,
   * value) pairs: a prediction, or `None` when the pipeline raises.
   */
  type Regressor = seq<(string, Value)> -> Option<real>

  /** `required_fields`, the columns of the served model in its order. */
  const RequiredFields: seq<string> := [
    "crop_type", "soil_moisture_percent", "temperature_celsius",
    "humidity_percent", "rainfall_mm", "crop_water_base"]

  /** `crop_rules` of the `/crop-info` endpoint. */
  const CropRules: map<string, int> := map[
    "rice" := 6500, "maize" := 5000, "pomegranate" := 4400, "banana" := 5100,
    "mango" := 4600, "watermelon" := 4700, "papaya" := 4850]

  /** The server asks for the six inputs, in the order every preparation hands them to training. */
  lemma RequiredAreModelInputs()
    ensures RequiredFields == Cleaning.ModelInputs
    ensures RequiredFields == AdaptData.FeatureColumns
    ensures RequiredFields == VerifyData.XColumns
    ensures RequiredFields == RetrainModel.FeatureCols
    ensures Distinct(RequiredFields) && |RequiredFields| == 6
  {
    VerifyData.Layout();
    RetrainModel.Layout();
    AdaptData.FinalColumnsLayout();
    Cleaning.InputsDistinct();
  }

  /** `/crop-info` serves the table the training preparation and the retraining use. */
  lemma CropInfoIsTrainingTable()
    ensures CropRules == AdaptData.CropRulesFull
    ensures CropRules == RetrainModel.CropBaseWater
    ensures |CropRules| == 7
  {
    RetrainModel.SameTableAsTraining();
    assert CropRules.Keys == {"rice", "maize", "pomegranate", "banana", "mango", "watermelon", "papaya"};
  }

  /** The model file as start-up finds it. */
  datatype ModelFile = Absent | Unreadable | Pickled(regressor: Regressor)

  /**
   * The start-up load: `FileNotFoundError` leaves the server running without
   * a model; any other unpickling error is not caught and the server does
   * not start (`Failure`).
   */
  function LoadModel(file: ModelFile): (r: Result<Option<Regressor>, ModelFile>)
    ensures r == Success(None) <==> file.Absent?
    ensures r.Failure? <==> file.Unreadable?
    ensures file.Pickled? ==> r == Success(Some(file.regressor))
  {
    match file
    case Absent => Success(None)
    case Unreadable => Failure(file)
    case Pickled(m) => Success(Some(m))
  }

  /** A value Python's `in` works on: a dict, a list or a str. */
  predicate Container(v: Value) {
    v.Object? || v.Array? || v.Str?
  }

  /** `needle` occurs in `s` starting at index `i`. */
  predicate OccursAt(needle: string, s: string, i: int) {
    0 <= i && i + |needle| <= |s| && s[i..i + |needle|] == needle
  }

  /** Python's `needle in s` on two str values. */
  predicate Substring(needle: string, s: string) {
    exists i | 0 <= i <= |s| :: OccursAt(needle, s, i)
  }

  /**
   * `field in data`: a key of a dict, an element of a list (only a string
   * equals a field name), a substring of a str.
   */
  predicate Contains(data: Value, field: string)
    requires Container(data)
  {
    match data
    case Object(m) => field in m
    case Array(items) => Str(field) in items
    case Str(s) => Substring(field, s)
  }

  /** `field not in data`: the fields of `fields` the body lacks, in their order. */
  function Missing(fields: seq<string>, data: Value): (r: seq<string>)
    requires Container(data)
    ensures forall f :: f in r <==> f in fields && !Contains(data, f)
    ensures Distinct(fields) ==> forall i, j | 0 <= i < j < |r| :: IndexOf(fields, r[i]) < IndexOf(fields, r[j])
  {
    if fields == [] then []
    else
      var rest := Missing(fields[1..], data);
      forall f | f in rest && Distinct(fields)
        ensures f != fields[0] && IndexOf(fields, f) == 1 + IndexOf(fields[1..], f)
      {
        var k := IndexOf(fields[1..], f);
        assert fields[k + 1] == f;
      }
      if Contains(data, fields[0]) then rest else [fields[0]] + rest
  }

  /** Python's `float(v)` on a JSON value; `parse` is `float` of a string. */
  function Float(v: Value, parse: string -> Option<real>): (r: Option<real>)
    ensures v.Number? ==> r == Some(v.x)
    ensures v.Bool? ==> r == Some(if v.b then 1.0 else 0.0)
    ensures v.Null? || v.Array? || v.Object? ==> r.None?
  {
    match v
    case Number(x) => Some(x)
    case Str(s) => parse(s)
    case Bool(b) => Some(if b then 1.0 else 0.0)
    case Null => None
    case Array(_) => None
    case Object(_) => None
  }

  /** Why a request was refused. */
  datatype Refusal =
    | ModelNotLoaded                      // `model is None`
    | NotJson                             // `request.json` raises: the body is not JSON
    | NotIterable                         // `in` on a number, a boolean or null
    | MissingFields(fields: seq<string>)
    | NotSubscriptable                    // `data['crop_type']` on a list or a str
    | NotAFloat(field: string)
    | PredictionFailed

  datatype Response =
    | Predicted(water: real, input: map<string, Value>)
    | Refused(status: int, reason: Refusal)

  /** The position, from `from` on, of the first field of `fields` whose value `float` refuses. */
  function FirstNotFloat(data: map<string, Value>, parse: string -> Option<real>, fields: seq<string>, from: nat): (r: Option<nat>)
    requires from <= |fields| && forall f | f in fields :: f in data
    ensures r.None? <==> forall j | from <= j < |fields| :: Float(data[fields[j]], parse).Some?
    ensures r.Some? ==> from <= r.value < |fields| && Float(data[fields[r.value]], parse).None?
    ensures r.Some? ==> forall j | from <= j < r.value :: Float(data[fields[j]], parse).Some?
    decreases |fields| - from
  {
    if from == |fields| then None
    else if Float(data[fields[from]], parse).None? then Some(from)
    else FirstNotFloat(data, parse, fields, from + 1)
  }

  /**
   * `input_df`: one row with the six required fields in order, the crop as
   * sent, unnormalised, and the five others through `float`, evaluated in
   * order; the first one `float` refuses raises.
   */
  function InputRow(data: map<string, Value>, parse: string -> Option<real>): (r: Result<seq<(string, Value)>, Refusal>)
    requires forall f | f in RequiredFields :: f in data
    ensures r.Success? <==> forall k | 1 <= k < |RequiredFields| :: Float(data[RequiredFields[k]], parse).Some?
    ensures r.Failure? ==> exists k | 1 <= k < |RequiredFields| && Float(data[RequiredFields[k]], parse).None? ::
      && (forall j | 1 <= j < k :: Float(data[RequiredFields[j]], parse).Some?)
      && r.error == NotAFloat(RequiredFields[k])
    ensures r.Success? ==>
      && |r.value| == |RequiredFields|
      && (forall k | 0 <= k < |r.value| :: r.value[k].0 == RequiredFields[k])
      && r.value[0].1 == data[Cleaning.Crop]
      && (forall k | 1 <= k < |r.value| :: r.value[k].1 == Number(Float(data[RequiredFields[k]], parse).value))
  {
    match FirstNotFloat(data, parse, RequiredFields, 1)
    case Some(k) => Failure(NotAFloat(RequiredFields[k]))
    case None =>
      Success(seq(|RequiredFields|, k requires 0 <= k < |RequiredFields| =>
        (RequiredFields[k], if k == 0 then data[RequiredFields[0]] else Number(Float(data[RequiredFields[k]], parse).value))))
  }

  /**
   * `predict()`. Without a model every request is refused with 500 before
   * anything else. Inside the `try`, everything that raises gives 500: a
   * body that is not JSON, a JSON scalar `in` cannot search, a list or str
   * that has every field but cannot be indexed by name, a value `float`
   * refuses, a failing prediction. Missing fields give 400 listing them in
   * required order, whatever kind of container the body is, and the regressor
   * is not consulted. Otherwise the prediction and the body as sent.
   */
  function Predict(model: Option<Regressor>, body: Option<Value>, parse: string -> Option<real>): (r: Response)
    ensures model.None? ==> r == Refused(500, ModelNotLoaded)
    ensures model.Some? && body.None? ==> r == Refused(500, NotJson)
    ensures model.Some? && body.Some? && !Container(body.value) ==> r == Refused(500, NotIterable)
    ensures model.Some? && body.Some? && Container(body.value) && Missing(RequiredFields, body.value) != [] ==>
      r == Refused(400, MissingFields(Missing(RequiredFields, body.value)))
    ensures model.Some? && body.Some? && (body.value.Array? || body.value.Str?) && Missing(RequiredFields, body.value) == [] ==>
      r == Refused(500, NotSubscriptable)
    ensures r.Refused? ==> (r.status == 400 <==> r.reason.MissingFields?) && (r.status == 400 || r.status == 500)
    ensures r.Predicted? ==> model.Some? && body.Some? && body.value.Object? && r.input == body.value.fields
    ensures r.Predicted? ==> forall f | f in RequiredFields :: f in body.value.fields
    ensures r.Predicted? ==> var row := InputRow(body.value.fields, parse);
      row.Success? && model.value(row.value) == Some(r.water)
    ensures model.Some? && body.Some? && body.value.Object? && (forall f | f in RequiredFields :: f in body.value.fields) ==>
      (r.Predicted? <==> var row := InputRow(body.value.fields, parse); row.Success? && model.value(row.value).Some?)
  {
    if model.None? then Refused(500, ModelNotLoaded)
    else if body.None? then Refused(500, NotJson)
    else if !Container(body.value) then Refused(500, NotIterable)
    else
      var missing := Missing(RequiredFields, body.value);
      if missing != [] then
        assert missing[0] in RequiredFields && !Contains(body.value, missing[0]);
        Refused(400, MissingFields(missing))
      else if !body.value.Object? then Refused(500, NotSubscriptable)
      else
        assert forall f | f in RequiredFields :: Contains(body.value, f);
        match InputRow(body.value.fields, parse)
        case Failure(e) => Refused(500, e)
        case Success(row) =>
          match model.value(row)
          case None => Refused(500, PredictionFailed)
          case Some(w) => Predicted(w, body.value.fields)
  }

  /** An empty JSON list lacks every field: 400, listing all six. */
  lemma EmptyListBody(model: Regressor, parse: string -> Option<real>)
    ensures Predict(Some(model), Some(Array([])), parse) == Refused(400, MissingFields(RequiredFields))
  {
    var m := Missing(RequiredFields, Array([]));
    assert forall f :: f in m <==> f in RequiredFields;
    MissingAll(RequiredFields, Array([]));
  }

  /** When the body contains none of the fields, all of them are missing, in order. */
  lemma {:induction false} MissingAll(fields: seq<string>, data: Value)
    requires Container(data) && forall f | f in fields :: !Contains(data, f)
    ensures Missing(fields, data) == fields
  {
    if fields != [] {
      MissingAll(fields[1..], data);
    }
  }

  /** A str body that spells out every field passes the check but cannot be indexed: 500. */
  lemma StringBodyWithEveryField(model: Regressor, parse: string -> Option<real>, s: string)
    requires forall f | f in RequiredFields :: Substring(f, s)
    ensures Predict(Some(model), Some(Str(s)), parse) == Refused(500, NotSubscriptable)
  {
    NoneMissing(RequiredFields, Str(s));
  }

  /** When the body contains every field, none is missing. */
  lemma {:induction false} NoneMissing(fields: seq<string>, data: Value)
    requires Container(data) && forall f | f in fields :: Contains(data, f)
    ensures Missing(fields, data) == []
  {
    if fields != [] {
      NoneMissing(fields[1..], data);
    }
  }

  /**
   * The crop reaches the model as sent: a request for "Rice" is passed on
   * capitalised, and an encoder whose categories are lowercase crop names,
   * as the training preparation's are, encodes it as the all-zero vector of
   * an unknown crop.
   */
  lemma CapitalisedCropUnknown(categories: seq<string>, body: map<string, Value>, parse: string -> Option<real>)
    requires Distinct(categories) && forall c | c in categories :: Text.NoUpper(c)
    requires forall f | f in RequiredFields :: f in body
    requires body[Cleaning.Crop] == Str("Rice") && InputRow(body, parse).Success?
    ensures InputRow(body, parse).value[0] == (Cleaning.Crop, Str("Rice"))
    ensures AdaptData.OneHot(categories, "Rice") == seq(|categories|, k => 0.0)
  {
    assert Text.IsUpper("Rice"[0]);
    AdaptData.OneHotIgnoresUnknown(categories, "Rice");
  }
}
