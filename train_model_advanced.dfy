/**
 * The data preparation of `train_model_advanced.py`: the recorded target is
 * scaled by 20, the crop is label-encoded, `create_features` adds the ten
 * derived values, and the fifteen `feature_columns` form `X`. Fitting the
 * network, scaling and evaluation are outside this model; only the accuracy
 * formula applied to the evaluation's MAPE is kept.
 */
module TrainAdvanced {
  import opened Wrappers
  import opened Frames
  import opened Cleaning
  import opened AdvancedFeatures

  /** `feature_columns`: the crop code, the four readings, the ten derived values. */
  const FeatureColumns: seq<string> := [
    "crop_encoded",
    "soil_moisture_percent", "temperature_celsius", "humidity_percent", "rainfall_mm",
    "temp_humidity_ratio", "humidity_rainfall_ratio", "temp_moisture_interaction",
    "moisture_humidity_product", "moisture_rainfall_product", "water_saturation_deficit",
    "soil_water_deficit", "net_water_input", "temp_squared", "moisture_squared"]

  /** The factor the recorded target is multiplied by before training. */
  const Scale: real := 20.0

  /** The fifteen feature columns are fifteen distinct names: the crop code, the readings, the derived values. */
  lemma Layout()
    ensures FeatureColumns == AdvancedInputs
    ensures |FeatureColumns| == 15 && Distinct(FeatureColumns)
    ensures FeatureColumns[0] == Encoded && FeatureColumns[1..5] == Raw && FeatureColumns[5..] == DerivedNames
  {
    InputsLayout();
  }

  /**
   * Steps 1 to 3 of the script on the dataset file, `None` when it does not
   * exist. A missing file is the handled `FileNotFoundError` and `exit(1)`;
   * every other failure is an uncaught KeyError or TypeError, which ends the
   * script with status 1 as well. The LabelEncoder is the parameter `encoder`.
   */
  method Prepare(input: Option<Frame>, encoder: seq<Cell> -> seq<nat>) returns (out: Result<Training, Stop>)
    requires input.Some? ==> WellFormed(input.value)
    requires forall c: seq<Cell> :: |encoder(c)| == |c|
    ensures input.None? ==> out == Failure(Stop(1, FileNotFound))
    ensures out.Failure? ==> out.error.status == 1
    ensures out.Success? <==> input.Some? && Assemblable(input.value)
    ensures input.Some? && Water !in input.value.names ==> out == Failure(Stop(1, MissingColumn(Water)))
    ensures input.Some? && Water in input.value.names && HasText(Column(input.value, Water)) ==>
      out == Failure(Stop(1, NotNumeric(Water, FirstText(Column(input.value, Water)).value)))
    ensures input.Some? && Water in input.value.names && !HasText(Column(input.value, Water)) && Crop !in input.value.names ==>
      out == Failure(Stop(1, MissingColumn(Crop)))
    ensures out.Failure? && input.Some? && Encodable(input.value) ==>
      exists k: nat :: FailsAt(input.value, k, out.error.fault)
    ensures out.Success? ==> var f := input.value;
      && WellFormed(out.value.features) && out.value.features.names == FeatureColumns
      && Designed(f, encoder(Column(f, Crop)), Scale, out.value.features, out.value.target)
  {
    if input.None? {
      return Failure(Stop(1, FileNotFound));
    }
    Layout();
    var assembled := Assemble(input.value, encoder, Scale, FeatureColumns);
    if assembled.Failure? {
      return Failure(Stop(1, assembled.error));
    }
    return Success(assembled.value);
  }

  /**
   * `accuracy = max(0, (1 - mape/100) * 100)`: one hundred less the
   * percentage error, and never below zero.
   */
  function Accuracy(mape: real): (a: real)
    ensures a >= 0.0
    ensures mape <= 100.0 ==> a == 100.0 - mape
    ensures mape >= 100.0 ==> a == 0.0
  {
    var raw := (1.0 - mape / 100.0) * 100.0;
    if raw > 0.0 then raw else 0.0
  }
}
