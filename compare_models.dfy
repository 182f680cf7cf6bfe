/**
 * The data preparation and the results table of `compare_models.py`, which
 * scores three scikit-learn regressors on the advanced features. The dataset
 * path falls back to a local file; a duplicated header row is removed; the
 * five numeric columns are coerced and every row with a missing value goes;
 * the rest is the advanced scripts' pipeline. Fitting and the metrics are
 * parameters.
 */
module CompareModels {
  import opened Wrappers
  import opened Frames
  import opened Cleaning
  import opened AdvancedFeatures
  import TrainAdvanced

  /** The two places the dataset is looked for. */
  datatype Dataset = Primary | Local

  /** `cols_to_numeric`. */
  const NumberColumns: seq<string> := [
    "soil_moisture_percent", "temperature_celsius", "humidity_percent",
    "rainfall_mm", "water_requirement_liters_per_hectare"]

  /** `feature_columns`, restated in this script. */
  const FeatureColumns: seq<string> := [
    "crop_encoded", "soil_moisture_percent", "temperature_celsius", "humidity_percent", "rainfall_mm",
    "temp_humidity_ratio", "humidity_rainfall_ratio", "temp_moisture_interaction",
    "moisture_humidity_product", "moisture_rainfall_product", "water_saturation_deficit",
    "soil_water_deficit", "net_water_input", "temp_squared", "moisture_squared"]

  /** The factor the target is multiplied by after cleaning. */
  const Scale: real := 20.0

  /** The regressors of `models`, in the order the dict lists them. */
  const ModelNames: seq<string> := ["Linear Regression", "Decision Tree", "Random Forest"]

  lemma Layout()
    ensures NumberColumns == [Moisture] + Readings + [Water]
    ensures forall n | n in Raw :: n in NumberColumns
    ensures Water in NumberColumns && Crop !in NumberColumns
  {
    assert Crop[0] != Moisture[0] && Crop[0] != Temperature[0] && Crop[0] != Humidity[0];
    assert Crop[0] != Rainfall[0] && Crop[0] != Water[0];
  }

  /** The comparison feeds the regressors the same fifteen columns, scaled target and all, as the advanced training. */
  lemma SameDesignAsAdvanced()
    ensures FeatureColumns == TrainAdvanced.FeatureColumns
    ensures FeatureColumns == AdvancedInputs
    ensures Scale == TrainAdvanced.Scale
  {
    TrainAdvanced.Layout();
  }

  /**
   * `if not os.path.exists(DATASET_PATH)`: the primary path when it exists,
   * otherwise the local file when that exists, otherwise `exit(1)`.
   */
  function ResolveDataset(primaryExists: bool, localExists: bool): (r: Result<Dataset, Stop>)
    ensures r == Success(Primary) <==> primaryExists
    ensures r == Success(Local) <==> !primaryExists && localExists
    ensures r.Failure? <==> !primaryExists && !localExists
    ensures r.Failure? ==> r.error == Stop(1, FileNotFound)
  {
    if primaryExists then Success(Primary)
    else if localExists then Success(Local)
    else Failure(Stop(1, FileNotFound))
  }

  /** `pd.to_numeric(..., errors='coerce')` on the columns `cols`; other cells stay. */
  function Coerce(cols: seq<string>, n: string, c: Cell): (r: Cell)
    ensures n in cols ==> !r.Text? && (c.Num? ==> r == c) && (!c.Num? ==> r == NaN)
    ensures n !in cols ==> r == c
  {
    if n in cols then ToNumeric(c) else c
  }

  /** Row `i` of `H` has a value in every column once `cols` are coerced. */
  predicate Survives(H: Frame, i: int, cols: seq<string>)
    requires WellFormed(H) && 0 <= i < |H.rows|
  {
    forall n | n in H.names :: !Coerce(cols, n, Get(H, i, n)).NaN?
  }

  /**
   * `D` is `H` after coercing `cols` and `dropna()`: `ks` lists, in order,
   * exactly the rows of `H` with no missing value after coercion, and row
   * `j` of `D` is row `ks[j]` of `H`, coerced.
   */
  predicate Cleaned(H: Frame, D: Frame, cols: seq<string>, ks: seq<nat>)
    requires WellFormed(H) && WellFormed(D)
  {
    && D.names == H.names && |D.rows| == |ks|
    && (forall a, b | 0 <= a < b < |ks| :: ks[a] < ks[b])
    && (forall j | 0 <= j < |ks| :: ks[j] < |H.rows|)
    && (forall j, n | 0 <= j < |ks| && n in H.names :: Get(D, j, n) == Coerce(cols, n, Get(H, ks[j], n)))
    && (forall i | 0 <= i < |H.rows| :: i in ks <==> Survives(H, i, cols))
  }

  /**
   * `for col in cols: df[col] = pd.to_numeric(df[col], errors='coerce')`,
   * then `df = df.dropna()`: a KeyError for the first missing column;
   * otherwise the surviving rows, and the coerced columns hold no text.
   */
  method Clean(H: Frame, cols: seq<string>) returns (r: Result<Frame, Fault>)
    requires WellFormed(H)
    ensures r.Success? <==> forall n | n in cols :: n in H.names
    ensures r.Failure? ==> r.error.MissingColumn? && FirstMissing(cols, H.names) == Some(r.error.column)
    ensures r.Success? ==> WellFormed(r.value) && exists ks :: Cleaned(H, r.value, cols, ks)
    ensures r.Success? ==> forall n | n in cols :: Usable(r.value, n)
  {
    var coerced := CoerceColumns(H, cols);
    if coerced.Failure? {
      return Failure(coerced.error);
    }
    var c := coerced.value;
    var D := DropNa(c, c.names).value;
    Dropped(H, c, D, cols);
    return Success(D);
  }

  /** What coercion and `dropna()` leave, as `Cleaned` states it. */
  lemma Dropped(H: Frame, c: Frame, D: Frame, cols: seq<string>)
    requires WellFormed(H) && WellFormed(c) && c.names == H.names && |c.rows| == |H.rows|
    requires forall n | n in cols :: n in H.names
    requires forall i, n | 0 <= i < |H.rows| && n in H.names :: Get(c, i, n) == Coerce(cols, n, Get(H, i, n))
    requires DropNa(c, c.names) == Success(D)
    ensures WellFormed(D) && Cleaned(H, D, cols, Kept(c.rows, row => Complete(row, Positions(c.names, c.names))))
    ensures forall n | n in cols :: Usable(D, n)
  {
    var ks := Kept(c.rows, row => Complete(row, Positions(c.names, c.names)));
    forall j, n | 0 <= j < |ks| && n in H.names
      ensures Get(D, j, n) == Coerce(cols, n, Get(H, ks[j], n))
    {
      assert D.rows[j] == c.rows[ks[j]];
    }
    forall i | 0 <= i < |H.rows|
      ensures HasValues(c, i, c.names) <==> Survives(H, i, cols)
    {
    }
    forall n | n in cols
      ensures Usable(D, n)
    {
      forall j | 0 <= j < |D.rows|
        ensures !Column(D, n)[j].Text?
      {
        assert Get(D, j, n) == Coerce(cols, n, Get(H, ks[j], n));
      }
    }
  }

  /** The frame read gets past the header check and has every column to coerce. */
  predicate Loadable(f: Frame)
    requires WellFormed(f)
  {
    && |f.rows| > 0 && Crop in f.names
    && forall n | n in NumberColumns :: n in f.names
  }

  /**
   * Steps 1 to 3 of the script. `read` gives the contents of each dataset
   * file, the LabelEncoder is `encoder`. Every failure ends the script with
   * status 1: the `exit(1)` when no dataset exists, otherwise an uncaught
   * IndexError (no rows for `iloc[0]`) or KeyError. Once the frame is
   * loadable nothing later fails: coercion leaves no text behind.
   */
  method Prepare(primaryExists: bool, localExists: bool, read: Dataset -> Frame, encoder: seq<Cell> -> seq<nat>)
    returns (out: Result<Training, Stop>)
    requires forall d: Dataset :: WellFormed(read(d))
    requires forall c: seq<Cell> :: |encoder(c)| == |c|
    ensures !primaryExists && !localExists ==> out == Failure(Stop(1, FileNotFound))
    ensures out.Failure? ==> out.error.status == 1
    ensures out.Success? <==>
      ResolveDataset(primaryExists, localExists).Success? && Loadable(read(ResolveDataset(primaryExists, localExists).value))
    ensures out.Success? ==>
      var H := Deduplicated(read(ResolveDataset(primaryExists, localExists).value));
      var X := out.value.features;
      && WellFormed(X) && X.names == FeatureColumns
      && exists D, ks :: WellFormed(D) && Cleaned(H, D, NumberColumns, ks) &&
           Designed(D, encoder(Column(D, Crop)), Scale, X, out.value.target)
  {
    var path :- ResolveDataset(primaryExists, localExists);
    var f := read(path);
    if |f.rows| == 0 {
      return Failure(Stop(1, EmptyFrame));
    }
    if Crop !in f.names {
      return Failure(Stop(1, MissingColumn(Crop)));
    }
    var H := Deduplicated(f);
    var cleaned := Clean(H, NumberColumns);
    if cleaned.Failure? {
      return Failure(Stop(1, cleaned.error));
    }
    var D := cleaned.value;
    Layout();
    SameDesignAsAdvanced();
    assert Usable(D, Water);
    var assembled := Assemble(D, encoder, Scale, FeatureColumns);
    return Success(assembled.value);
  }

  /** `accuracy = max(0, 100 - mape)`. */
  function Accuracy(mape: real): (a: real)
    ensures a >= 0.0 && a >= 100.0 - mape
    ensures a == 0.0 || a == 100.0 - mape
  {
    if 100.0 - mape > 0.0 then 100.0 - mape else 0.0
  }

  /** Over the reals the comparison's accuracy is the advanced training's. */
  lemma AccuracyAgrees(mape: real)
    ensures Accuracy(mape) == TrainAdvanced.Accuracy(mape)
  {
    if mape <= 100.0 {
      assert TrainAdvanced.Accuracy(mape) == 100.0 - mape;
    }
  }

  /** What scikit-learn reports for one fitted regressor on the test split. */
  datatype Metrics = Metrics(r2: real, mae: real, mse: real, rmse: real, mape: real)

  /** One entry of `results`. */
  datatype Entry = Entry(model: string, r2: real, mae: real, mse: real, rmse: real, accuracy: real)

  /**
   * The `for name, model in models.items()` loop: one entry appended per
   * regressor, in the dict's order, carrying its metrics and its accuracy.
   * `evaluate` stands for fitting, predicting and scoring; its `mape` is the
   * fraction scikit-learn returns, which the script multiplies by 100.
   */
  method Evaluate(evaluate: string -> Metrics) returns (results: seq<Entry>)
    ensures |results| == |ModelNames|
    ensures forall k | 0 <= k < |results| :: results[k].model == ModelNames[k]
    ensures forall k | 0 <= k < |results| ::
      var m := evaluate(ModelNames[k]);
      && results[k].r2 == m.r2 && results[k].mae == m.mae && results[k].mse == m.mse && results[k].rmse == m.rmse
      && results[k].accuracy == Accuracy(m.mape * 100.0) && results[k].accuracy >= 0.0
  {
    results := [];
    for k := 0 to |ModelNames|
      invariant |results| == k
      invariant forall j | 0 <= j < k :: results[j].model == ModelNames[j]
      invariant forall j | 0 <= j < k ::
        var m := evaluate(ModelNames[j]);
        && results[j].r2 == m.r2 && results[j].mae == m.mae && results[j].mse == m.mse && results[j].rmse == m.rmse
        && results[j].accuracy == Accuracy(m.mape * 100.0) && results[j].accuracy >= 0.0
    {
      var m := evaluate(ModelNames[k]);
      var mape := m.mape * 100.0;
      results := results + [Entry(ModelNames[k], m.r2, m.mae, m.mse, m.rmse, Accuracy(mape))];
    }
  }
}
