/**
 * The data-engineering and training pipeline of `src/ml/adapt_data.py` and its
 * older copy `adapt_data.py`. The two scripts run the same preparation with the
 * same literal crop table and column lists; they differ in file paths, in the
 * report, and in that the copy in `src/ml` grades the fitted model. Model
 * fitting, the split and the metrics are outside this model: the fitted R²
 * score is an input of the grading.
 */
module AdaptData {
  import opened Wrappers
  import opened Frames
  import Text
  import CropTable
  import Target
  import opened Cleaning

  /** `CROP_RULES_FULL`: litres per hectare for the seven crops the rules know. */
  const CropRulesFull: map<string, int> := map[
    "rice" := 6500, "maize" := 5000, "pomegranate" := 4400, "banana" := 5100,
    "mango" := 4600, "watermelon" := 4700, "papaya" := 4850]

  /** `numeric_cols_to_check`: the columns coerced to numbers before imputation. */
  const NumericColsToCheck: seq<string> := ["temperature_celsius", "humidity_percent", "rainfall_mm"]

  /** `final_columns`: the six model inputs followed by the target. */
  const FinalColumns: seq<string> := [
    "crop_type", "soil_moisture_percent", "temperature_celsius", "humidity_percent",
    "rainfall_mm", "crop_water_base", "water_requirement_liters_per_hectare"]

  /** The `X` the pipeline trains on: `final_columns` without the target. */
  const FeatureColumns: seq<string> := [
    "crop_type", "soil_moisture_percent", "temperature_celsius", "humidity_percent",
    "rainfall_mm", "crop_water_base"]

  /**
   * Sections A and B of the pipeline, up to the frames handed to
   * `train_test_split`. `moisture` is the rounded uniform draw per row and
   * `noise` the normal draw `calculate_water` adds per row. A missing file
   * ends the script through `exit()` (status 0); every other error is
   * uncaught (status 1). It succeeds exactly when the rename succeeds, the
   * crop column holds a name and each reading has a row that parses; a file
   * without rows fails in `apply`.
   *
   * On success, with `R` the frame after the rename: no row is lost; the crop
   * is normalised; each coerced reading keeps its number or takes the mean of
   * its column's numbers; the moisture is the draw; the base column holds the
   * table value the target formula used; the target is that formula over the
   * same row; and `X` is the six feature columns in their fixed order.
   */
  method Prepare(input: Option<Frame>, moisture: seq<real>, noise: seq<real>) returns (out: Result<Training, Stop>)
    requires input.Some? ==> WellFormed(input.value)
    requires input.Some? ==> |moisture| == |input.value.rows| && |noise| == |input.value.rows|
    ensures input.None? ==> out == Failure(Stop(0, FileNotFound))
    ensures input.Some? && out.Failure? ==> out.error.status == 1
    ensures out.Success? <==>
      && input.Some? && Rename(input.value, StandardNames).Success?
      && var R := Rename(input.value, StandardNames).value;
         Crop in R.names && HasText(Column(R, Crop)) && Imputable(R, NumericColsToCheck)
    ensures input.Some? && Rename(input.value, StandardNames).Success? ==>
      var R := Rename(input.value, StandardNames).value;
      Crop in R.names && |R.rows| == 0 && (forall n | n in NumericColsToCheck :: n in R.names) ==>
        out == Failure(Stop(1, NoRows))
    ensures out.Success? ==> var R := Rename(input.value, StandardNames).value;
      && out.value.features.names == FeatureColumns && WellFormed(out.value.features)
      && |out.value.features.rows| == |input.value.rows| && |out.value.target| == |input.value.rows|
    ensures out.Success? ==> var R := Rename(input.value, StandardNames).value;
      CleanedInputs(R, out.value.features, Text.Normalise, NumericColsToCheck)
    ensures out.Success? ==> Labelled(out.value.features, out.value.target, CropRulesFull, moisture, Some(noise))
  {
    if input.None? {
      return Failure(Stop(0, FileNotFound));
    }
    // 1. standard names
    var renamed := Rename(input.value, StandardNames);
    if renamed.Failure? {
      return Failure(Stop(1, renamed.error));
    }
    var R := renamed.value;
    // 2.-5. normalisation, coercion, imputation, moisture, base and target
    FinalColumnsLayout();
    var engineered := CleanAndEngineer(R, Text.Normalise, CropRulesFull, moisture, Some(noise));
    if engineered.Failure? {
      return Failure(Stop(1, engineered.error));
    }
    var e := engineered.value.frame;
    var ws := engineered.value.targets;
    var X, y := Split(e, ws);
    ComposeInputs(R, e, X, Text.Normalise, Readings);
    ComposeTargets(e, X, y, CropRulesFull, moisture, Some(noise));
    return Success(Training(X, y));
  }

  lemma FinalColumnsLayout()
    ensures Distinct(FinalColumns) && Distinct(FeatureColumns)
    ensures IndexOf(FinalColumns, Water) == 6
    ensures FinalColumns[..6] + FinalColumns[7..] == FeatureColumns
    ensures FeatureColumns == ModelInputs
    ensures NumericColsToCheck == Readings
  {
  }

  /**
   * Section 5 to B: the target column is added, `final_columns` selected, and
   * `X` is that selection without the target, `Y` the target.
   */
  method Split(e: Frame, ws: seq<int>) returns (X: Frame, y: seq<Cell>)
    requires WellFormed(e) && |ws| == |e.rows|
    requires forall n | n in FeatureColumns :: n in e.names
    ensures WellFormed(X) && X.names == FeatureColumns && |X.rows| == |e.rows|
    ensures Inputs(e, X)
    ensures y == IntCells(ws)
  {
    FinalColumnsLayout();
    var t := Assign(e, Water, IntCells(ws));
    assert forall n | n in FinalColumns :: n in t.names;
    var final := Select(t, FinalColumns).value;
    X := DropColumn(final, Water).value;
    y := Column(final, Water);
    Selected(e, ws, t, final, X, y);
  }

  /** Selecting `final_columns` and dropping the target keeps each feature and the target of every row. */
  lemma Selected(e: Frame, ws: seq<int>, t: Frame, final: Frame, X: Frame, y: seq<Cell>)
    requires WellFormed(e) && WellFormed(t) && WellFormed(final) && WellFormed(X)
    requires |ws| == |e.rows| && |t.rows| == |e.rows| && t.names == Added(e.names, Water)
    requires forall i | 0 <= i < |e.rows| :: Get(t, i, Water) == IntCells(ws)[i]
    requires forall i, n | 0 <= i < |e.rows| && n in e.names && n != Water :: Get(t, i, n) == Get(e, i, n)
    requires final.names == FinalColumns && |final.rows| == |t.rows| && forall n | n in FinalColumns :: n in t.names
    requires forall i, n | 0 <= i < |t.rows| && n in FinalColumns :: Get(final, i, n) == Get(t, i, n)
    requires X.names == FeatureColumns && |X.rows| == |final.rows|
    requires forall i, n | 0 <= i < |final.rows| && n in final.names && n != Water ::
      n in X.names && Get(X, i, n) == Get(final, i, n)
    requires |y| == |final.rows| && forall i | 0 <= i < |final.rows| :: y[i] == Get(final, i, Water)
    requires forall n | n in FeatureColumns :: n in e.names
    ensures forall i, n | 0 <= i < |e.rows| && n in FeatureColumns :: Get(X, i, n) == Get(e, i, n)
    ensures y == IntCells(ws)
  {
    forall i, n | 0 <= i < |e.rows| && n in FeatureColumns
      ensures Get(X, i, n) == Get(e, i, n)
    {
      assert n in FinalColumns && n != Water;
    }
  }

  // ---------------------------------------------------------------------------
  // The preprocessing of the regressor pipeline

  /** `numerical_features`: scaled by the `StandardScaler`. */
  const NumericalFeatures: seq<string> := [
    "soil_moisture_percent", "temperature_celsius", "humidity_percent", "rainfall_mm", "crop_water_base"]

  /** `categorical_features`: one-hot encoded. */
  const CategoricalFeatures: seq<string> := ["crop_type"]

  /**
   * The `ColumnTransformer` sees every column of `X` exactly once: the scaled
   * and the encoded columns together are the six features, so
   * `remainder='passthrough'` has nothing left to pass.
   */
  lemma TransformerCoversFeatures()
    ensures multiset(NumericalFeatures + CategoricalFeatures) == multiset(FeatureColumns)
  {
    assert FeatureColumns == CategoricalFeatures + NumericalFeatures;
    assert multiset(CategoricalFeatures + NumericalFeatures)
        == multiset(CategoricalFeatures) + multiset(NumericalFeatures);
  }

  /** No feature is both scaled and encoded, and no feature is left unprocessed. */
  lemma TransformerPartitionsFeatures()
    ensures forall n | n in FeatureColumns :: n in NumericalFeatures || n in CategoricalFeatures
    ensures forall n | n in NumericalFeatures :: n !in CategoricalFeatures
  {
    assert FeatureColumns == CategoricalFeatures + NumericalFeatures;
  }

  /**
   * `OneHotEncoder(handle_unknown='ignore')` fitted on the crop names in
   * `categories`: one indicator per category, 1.0 where the category is the
   * crop and 0.0 elsewhere.
   */
  function OneHot(categories: seq<string>, crop: string): (v: seq<real>)
    ensures |v| == |categories|
    ensures forall k | 0 <= k < |v| :: v[k] == if categories[k] == crop then 1.0 else 0.0
  {
    seq(|categories|, k requires 0 <= k < |categories| => if categories[k] == crop then 1.0 else 0.0)
  }

  function Total(v: seq<real>): real {
    if v == [] then 0.0 else v[0] + Total(v[1..])
  }

  lemma {:induction false} TotalOfOneHot(categories: seq<string>, crop: string)
    requires Distinct(categories)
    ensures Total(OneHot(categories, crop)) == if crop in categories then 1.0 else 0.0
  {
    if categories != [] {
      var v := OneHot(categories, crop);
      TotalOfOneHot(categories[1..], crop);
      assert v[1..] == OneHot(categories[1..], crop);
    }
  }

  /**
   * An unseen crop is encoded as the all-zero vector, as long as the
   * vocabulary; a seen crop has exactly one indicator set, at its position.
   */
  lemma OneHotIgnoresUnknown(categories: seq<string>, crop: string)
    requires Distinct(categories)
    ensures crop !in categories ==> OneHot(categories, crop) == seq(|categories|, k => 0.0)
    ensures crop in categories ==>
      && OneHot(categories, crop)[IndexOf(categories, crop)] == 1.0
      && Total(OneHot(categories, crop)) == 1.0
  {
    TotalOfOneHot(categories, crop);
  }

  // ---------------------------------------------------------------------------
  // The quality grade of the report (src/ml/adapt_data.py only)

  datatype Quality = Excellent | VeryGood | Good | NeedsImprovement

  /** The grade the report gives an R² score. */
  function Grade(r2: real): (q: Quality)
    ensures q == Excellent <==> r2 >= 0.95
    ensures q == VeryGood <==> 0.85 <= r2 < 0.95
    ensures q == Good <==> 0.70 <= r2 < 0.85
    ensures q == NeedsImprovement <==> r2 < 0.70
  {
    if r2 >= 0.95 then Excellent
    else if r2 >= 0.85 then VeryGood
    else if r2 >= 0.70 then Good
    else NeedsImprovement
  }

  function Rank(q: Quality): nat {
    match q
    case NeedsImprovement => 0
    case Good => 1
    case VeryGood => 2
    case Excellent => 3
  }

  /** A better score never gets a worse grade. */
  lemma GradeMonotone(a: real, b: real)
    requires a <= b
    ensures Rank(Grade(a)) <= Rank(Grade(b))
  {
  }

  /**
   * The cleanup runs before the lookup: a crop typed with capitals and
   * surrounding spaces still finds its base.
   */
  lemma SpacedCapitalCropFindsBase()
    ensures Text.Normalise(" Rice ") == "rice"
    ensures FormulaBase(CropRulesFull, CleanCell(Text(" Rice "), Text.Normalise), CropTable.DefaultBase) == 6500
  {
    NormaliseRice();
    RiceRule();
    assert CleanCell(Text(" Rice "), Text.Normalise) == Text("rice");
  }

  lemma NormaliseRice()
    ensures Text.Normalise(" Rice ") == "rice"
  {
    LowerRice();
    StripRice();
  }

  lemma RiceRule()
    ensures CropTable.GetOr(CropRulesFull, "rice", CropTable.DefaultBase) == 6500
  {
    assert "rice" in CropRulesFull;
  }

  lemma LowerRice()
    ensures Text.Lower(" Rice ") == " rice "
  {
    var l := Text.Lower(" Rice ");
    forall i | 0 <= i < 6 ensures l[i] == " rice "[i] {
    }
  }

  lemma StripRice()
    ensures Text.Strip(" rice ") == "rice"
  {
    var padded, tail, word := " rice ", "rice ", "rice";
    assert padded[0] == ' ' && Text.IsSpace(' ');
    assert padded[1..] == tail;
    assert tail[0] == 'r' && !Text.IsSpace('r');
    assert Text.StripStart(padded) == tail;
    assert tail[4] == ' ' && tail[..4] == word;
    assert word[3] == 'e' && !Text.IsSpace('e');
    assert Text.StripEnd(tail) == word;
  }
}
