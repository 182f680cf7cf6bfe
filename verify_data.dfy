/**
 * The data preparation of `verify_data.py`, the accuracy check of the saved
 * model: it rebuilds the training inputs from the raw dataset and labels each
 * row with the noiseless water formula. Loading the model, predicting and the
 * metrics are outside this model.
 */
module VerifyData {
  import opened Wrappers
  import opened Frames
  import Text
  import opened Cleaning
  import AdaptData

  /** `CROP_RULES`, the literal table of the check. */
  const CropRules: map<string, int> := map[
    "rice" := 6500, "maize" := 5000, "pomegranate" := 4400, "banana" := 5100,
    "mango" := 4600, "watermelon" := 4700, "papaya" := 4850]

  /** `cols`: the readings coerced to numbers. */
  const Cols: seq<string> := ["temperature_celsius", "humidity_percent", "rainfall_mm"]

  /** The column the formula's labels are stored in. */
  const TrueTarget := "true_target"

  /** The column list of `X`. */
  const XColumns: seq<string> := [
    "crop_type", "soil_moisture_percent", "temperature_celsius", "humidity_percent",
    "rainfall_mm", "crop_water_base"]

  /**
   * The `try` block of step 1. `moisture` is the rounded uniform draw per row.
   * Every error inside the block, a missing file included, ends the script
   * through `exit()`, so every failure has status 0. It succeeds exactly
   * when the rename succeeds, the crop column holds a name and each reading
   * has a row that parses; a file without rows fails in `apply`.
   *
   * On success, with `R` the frame after the conditional rename: no row is
   * lost; the crop is normalised; each coerced reading keeps its number or
   * takes the mean of its column's numbers; the moisture is the draw; the base
   * is the table's; and `y_true` is the formula over the row without noise.
   */
  method Prepare(input: Option<Frame>, moisture: seq<real>) returns (out: Result<Training, Stop>)
    requires input.Some? ==> WellFormed(input.value) && |moisture| == |input.value.rows|
    ensures input.None? ==> out == Failure(Stop(0, FileNotFound))
    ensures out.Failure? ==> out.error.status == 0
    ensures out.Success? <==>
      && input.Some? && RenameIfLabelled(input.value).Success?
      && var R := RenameIfLabelled(input.value).value;
         Crop in R.names && HasText(Column(R, Crop)) && Imputable(R, Cols)
    ensures input.Some? && RenameIfLabelled(input.value).Success? ==>
      var R := RenameIfLabelled(input.value).value;
      Crop in R.names && |R.rows| == 0 && (forall n | n in Cols :: n in R.names) ==>
        out == Failure(Stop(0, NoRows))
    ensures out.Success? ==> var R := RenameIfLabelled(input.value).value;
      && out.value.features.names == XColumns && WellFormed(out.value.features)
      && |out.value.features.rows| == |input.value.rows| && |out.value.target| == |input.value.rows|
    ensures out.Success? ==> var R := RenameIfLabelled(input.value).value;
      CleanedInputs(R, out.value.features, Text.Normalise, Cols)
    ensures out.Success? ==> Labelled(out.value.features, out.value.target, CropRules, moisture, None)
  {
    if input.None? {
      return Failure(Stop(0, FileNotFound));
    }
    var renamed := RenameIfLabelled(input.value);
    if renamed.Failure? {
      return Failure(Stop(0, renamed.error));
    }
    Layout();
    var labelled := Derive(renamed.value, Text.Normalise, CropRules, moisture, None, TrueTarget);
    if labelled.Failure? {
      return Failure(Stop(0, labelled.error));
    }
    return Success(labelled.value);
  }

  lemma Layout()
    ensures XColumns == ModelInputs && Cols == Readings && TrueTarget !in XColumns
  {
  }

  /**
   * The check rebuilds what training used: the same crop table, the same
   * coerced columns and the same model inputs as `src/ml/adapt_data.py`.
   */
  lemma AgreesWithTraining()
    ensures CropRules == AdaptData.CropRulesFull
    ensures Cols == AdaptData.NumericColsToCheck
    ensures XColumns == AdaptData.FeatureColumns
  {
  }

  /**
   * The check's labels are the training labels with every noise draw zero:
   * it measures the model against the noiseless formula.
   */
  lemma LabelsAreNoiseless(X: Frame, y: seq<Cell>, moisture: seq<real>)
    requires WellFormed(X) && X.names == ModelInputs && |y| == |X.rows| && |moisture| == |X.rows|
    ensures Labelled(X, y, CropRules, moisture, None)
        <==> Labelled(X, y, AdaptData.CropRulesFull, moisture, Some(seq(|X.rows|, _ => 0.0)))
  {
    AgreesWithTraining();
    var zero := seq(|X.rows|, _ => 0.0);
    NoiselessLabels(X, y, CropRules, moisture, zero);
  }
}
