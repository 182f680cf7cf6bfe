/**
 * The data preparation of `generate_scatter.py` and the axis range of its
 * plot. It prepares the data as the accuracy check does, except that rows
 * whose readings do not parse are dropped before the imputation. Loading the
 * model, predicting and drawing are outside this model; the predictions are
 * an input of the axis range.
 */
module GenerateScatter {
  import opened Wrappers
  import opened Frames
  import Text
  import opened Cleaning
  import VerifyData

  /** `CROP_RULES`, the literal table of the plot script. */
  const CropRules: map<string, int> := map[
    "rice" := 6500, "maize" := 5000, "pomegranate" := 4400, "banana" := 5100,
    "mango" := 4600, "watermelon" := 4700, "papaya" := 4850]

  /** `cols`: the readings coerced to numbers, and the `dropna` subset. */
  const Cols: seq<string> := ["temperature_celsius", "humidity_percent", "rainfall_mm"]

  /** The column the formula's labels are stored in. */
  const TrueTarget := "true_target"

  /** The column list of `X`. */
  const XColumns: seq<string> := [
    "crop_type", "soil_moisture_percent", "temperature_celsius", "humidity_percent",
    "rainfall_mm", "crop_water_base"]

  lemma Layout()
    ensures XColumns == ModelInputs && Cols == Readings && TrueTarget !in XColumns
  {
  }

  /** The plot script uses the table, the columns and the inputs of the accuracy check. */
  lemma AgreesWithCheck()
    ensures CropRules == VerifyData.CropRules
    ensures Cols == VerifyData.Cols
    ensures XColumns == VerifyData.XColumns
  {
  }

  /** Row `i` holds a number in each of the three readings: a row `dropna(subset=cols)` keeps. */
  predicate Parsed(R: Frame, i: int)
    requires WellFormed(R) && 0 <= i < |R.rows|
  {
    forall n | n in Readings :: n in R.names && Get(R, i, n).Num?
  }

  /** `ks` lists, in increasing order, exactly the rows of `R` with three parsed readings. */
  predicate KeptRows(R: Frame, ks: seq<nat>)
    requires WellFormed(R)
  {
    && (forall a, b | 0 <= a < b < |ks| :: ks[a] < ks[b])
    && (forall j | 0 <= j < |ks| :: ks[j] < |R.rows| && Parsed(R, ks[j]))
    && (forall i | 0 <= i < |R.rows| && Parsed(R, i) :: i in ks)
  }

  /** Row `j` of `X` carries the cleaned crop and the readings, as read, of row `ks[j]` of `R`. */
  predicate FromRows(R: Frame, X: Frame, ks: seq<nat>)
    requires WellFormed(R) && WellFormed(X) && |X.rows| == |ks|
    requires forall j | 0 <= j < |ks| :: ks[j] < |R.rows|
  {
    && Crop in R.names && Crop in X.names
    && (forall n | n in Readings :: n in R.names && n in X.names)
    && (forall j | 0 <= j < |ks| :: Get(X, j, Crop) == CleanCell(Get(R, ks[j], Crop), Text.Normalise))
    && (forall j, n | 0 <= j < |ks| && n in Readings :: Get(X, j, n) == Get(R, ks[j], n))
  }

  /**
   * The `try` block of step 1. `moisture` is the seeded uniform stream, of
   * which the script draws one value per row left after `dropna`. Every error
   * makes the function print and `return`, so every failure has status 0.
   *
   * It fails exactly when the renamed frame lacks the crop column or one of
   * the readings, has rows but no crop name, or has no row whose three
   * readings parse (`apply` over no rows). On success, with `R` the
   * renamed frame: the rows of `X` are the rows of `R` whose three readings
   * parse, in their order, each with its cleaned crop and its readings as
   * read (nothing is imputed in them); the moisture is the stream's prefix;
   * and `y_true` is the noiseless formula over the row.
   */
  method Prepare(input: Option<Frame>, moisture: seq<real>) returns (out: Result<Training, Stop>)
    requires input.Some? ==> WellFormed(input.value) && |moisture| >= |input.value.rows|
    ensures input.None? ==> out == Failure(Stop(0, FileNotFound))
    ensures out.Failure? ==> out.error.status == 0
    ensures out.Success? <==>
      && input.Some? && RenameIfLabelled(input.value).Success?
      && var R := RenameIfLabelled(input.value).value;
         && Crop in R.names && HasText(Column(R, Crop))
         && (forall n | n in Cols :: n in R.names)
         && exists i | 0 <= i < |R.rows| :: Parsed(R, i)
    ensures out.Success? ==> var R := RenameIfLabelled(input.value).value; var X := out.value.features;
      && X.names == XColumns && WellFormed(X) && |X.rows| <= |R.rows| && |out.value.target| == |X.rows|
      && exists ks :: |ks| == |X.rows| && KeptRows(R, ks) && FromRows(R, X, ks)
    ensures out.Success? ==> var X := out.value.features;
      |X.rows| <= |moisture| && Labelled(X, out.value.target, CropRules, moisture[..|X.rows|], None)
  {
    if input.None? {
      return Failure(Stop(0, FileNotFound));
    }
    var renamed := RenameIfLabelled(input.value);
    if renamed.Failure? {
      return Failure(Stop(0, renamed.error));
    }
    Layout();
    var labelled := Label(renamed.value, CropRules, moisture);
    if labelled.Failure? {
      return Failure(Stop(0, labelled.error));
    }
    return Success(labelled.value);
  }

  /**
   * From the renamed frame on: cleanup, `dropna`, imputation, features and
   * labels. When no row survives `dropna`, `apply` over no rows fails.
   */
  method Label(R: Frame, table: map<string, int>, moisture: seq<real>) returns (out: Result<Training, Fault>)
    requires WellFormed(R) && |moisture| >= |R.rows|
    ensures out.Success? <==>
      && Crop in R.names && HasText(Column(R, Crop))
      && (forall n | n in Readings :: n in R.names)
      && exists i | 0 <= i < |R.rows| :: Parsed(R, i)
    ensures Crop in R.names && (|R.rows| == 0 || HasText(Column(R, Crop))) && (forall n | n in Readings :: n in R.names) ==>
      ((forall i | 0 <= i < |R.rows| :: !Parsed(R, i)) ==> out == Failure(NoRows))
    ensures out.Success? ==> var X := out.value.features;
      && X.names == ModelInputs && WellFormed(X) && |X.rows| <= |R.rows| && |out.value.target| == |X.rows|
      && exists ks :: |ks| == |X.rows| && KeptRows(R, ks) && FromRows(R, X, ks)
    ensures out.Success? ==> var X := out.value.features;
      Labelled(X, out.value.target, table, moisture[..|X.rows|], None)
  {
    var dropped := Drop(R);
    if dropped.Failure? {
      return Failure(dropped.error);
    }
    var filled := dropped.value;
    ghost var ks :| |ks| == |filled.rows| <= |R.rows| && KeptRows(R, ks) && FromRows(R, filled, ks);
    SomeKept(R, ks);
    out := LabelKept(R, filled, ks, table, moisture[..|filled.rows|]);
  }

  /**
   * Features and labels of the rows `dropna` kept: `apply` over them, which
   * fails when there are none, then the target and the selection of `X`.
   */
  method LabelKept(R: Frame, filled: Frame, ghost ks: seq<nat>, table: map<string, int>, m: seq<real>)
    returns (out: Result<Training, Fault>)
    requires WellFormed(R) && WellFormed(filled) && Crop in filled.names
    requires |ks| == |filled.rows| && |m| == |filled.rows| && KeptRows(R, ks) && FromRows(R, filled, ks)
    requires forall j | 0 <= j < |filled.rows| :: Measured(filled, j)
    ensures out.Success? <==> |filled.rows| > 0
    ensures |filled.rows| == 0 ==> out == Failure(NoRows)
    ensures out.Success? ==> var X := out.value.features;
      && X.names == ModelInputs && WellFormed(X) && |X.rows| == |ks| && |out.value.target| == |X.rows|
      && FromRows(R, X, ks) && Labelled(X, out.value.target, table, m, None)
  {
    var engineered := Engineer(filled, table, m, None);
    if engineered.Failure? {
      return Failure(engineered.error);
    }
    var e := engineered.value.frame;
    var ws := engineered.value.targets;
    EngineeredHasInputs(filled, e);
    Carried(R, filled, e, ks);
    var X, y := Features(e, ws, TrueTarget, ModelInputs);
    Selected(R, e, X, ks);
    ComposeTargets(e, X, y, table, m, None);
    return Success(Training(X, y));
  }

  /** Some row is kept exactly when some row parses. */
  lemma SomeKept(R: Frame, ks: seq<nat>)
    requires WellFormed(R) && KeptRows(R, ks)
    ensures |ks| > 0 <==> exists i | 0 <= i < |R.rows| :: Parsed(R, i)
  {
    if |ks| > 0 {
      assert Parsed(R, ks[0]);
    }
  }

  /**
   * The cleanup, `dropna(subset=cols)` and `fillna`: the rows left are the
   * rows of `R` whose readings parse, with the cleaned crop and the readings
   * as read, so every one of them is measured.
   */
  method Drop(R: Frame) returns (r: Result<Frame, Fault>)
    requires WellFormed(R)
    ensures r.Success? <==>
      && Crop in R.names && (|R.rows| == 0 || HasText(Column(R, Crop)))
      && forall n | n in Readings :: n in R.names
    ensures r.Success? ==> WellFormed(r.value) && r.value.names == R.names
    ensures r.Success? ==> forall j | 0 <= j < |r.value.rows| :: Measured(r.value, j)
    ensures r.Success? ==>
      exists ks :: |ks| == |r.value.rows| <= |R.rows| && KeptRows(R, ks) && FromRows(R, r.value, ks)
  {
    var standard := Standardise(R, Text.Normalise, Readings);
    if standard.Failure? {
      return Failure(standard.error);
    }
    var s := standard.value;
    var d := DropNa(s, Readings).value;
    ghost var ks := Kept(s.rows, row => Complete(row, Positions(s.names, Readings)));
    Dropped(R, s, d, ks);
    var filled := FillNaMeans(d, [Crop]);
    Filled(R, d, filled, ks);
    return Success(filled);
  }

  /** `dropna(subset=cols)` after the coercion keeps exactly the rows whose readings parse. */
  lemma Dropped(R: Frame, s: Frame, d: Frame, ks: seq<nat>)
    requires WellFormed(R) && WellFormed(s) && s.names == R.names && |s.rows| == |R.rows|
    requires Crop in R.names && forall n | n in Readings :: n in R.names
    requires forall i, n | 0 <= i < |R.rows| && n in R.names ::
      Get(s, i, n) == if n == Crop then CleanCell(Get(R, i, n), Text.Normalise)
                      else if n in Readings then ToNumeric(Get(R, i, n))
                      else Get(R, i, n)
    requires ks == Kept(s.rows, row => Complete(row, Positions(s.names, Readings)))
    requires DropNa(s, Readings) == Success(d)
    ensures |d.rows| == |ks| <= |R.rows| && forall j | 0 <= j < |ks| :: ks[j] < |R.rows|
    ensures KeptRows(R, ks) && FromRows(R, d, ks)
  {
    forall i | 0 <= i < |R.rows|
      ensures HasValues(s, i, Readings) <==> Parsed(R, i)
    {
      assert forall n | n in Readings :: Get(s, i, n) == ToNumeric(Get(R, i, n));
    }
    forall j | 0 <= j < |ks|
      ensures Get(d, j, Crop) == CleanCell(Get(R, ks[j], Crop), Text.Normalise)
      ensures forall n | n in Readings :: Get(d, j, n) == Get(R, ks[j], n)
    {
      assert d.rows[j] == s.rows[ks[j]];
      assert HasValues(s, ks[j], Readings);
    }
  }

  /** The imputation after `dropna` leaves the crop and the readings of every kept row. */
  lemma Filled(R: Frame, d: Frame, filled: Frame, ks: seq<nat>)
    requires WellFormed(R) && WellFormed(d) && |d.rows| == |ks| && forall j | 0 <= j < |ks| :: ks[j] < |R.rows|
    requires KeptRows(R, ks) && FromRows(R, d, ks)
    requires filled == FillNaMeans(d, [Crop])
    ensures FromRows(R, filled, ks)
    ensures forall j | 0 <= j < |filled.rows| :: Measured(filled, j)
  {
    forall j, n | 0 <= j < |ks| && n in Readings
      ensures Get(filled, j, n) == Get(R, ks[j], n)
    {
      assert Parsed(R, ks[j]);
    }
  }

  /** Adding the engineered columns keeps the crop and the readings. */
  lemma Carried(R: Frame, filled: Frame, e: Frame, ks: seq<nat>)
    requires WellFormed(R) && WellFormed(filled) && WellFormed(e)
    requires |filled.rows| == |ks| && |e.rows| == |ks| && forall j | 0 <= j < |ks| :: ks[j] < |R.rows|
    requires FromRows(R, filled, ks) && Keeps(filled, e)
    ensures FromRows(R, e, ks)
  {
    forall j | 0 <= j < |ks|
      ensures Get(e, j, Crop) == Get(filled, j, Crop)
      ensures forall n | n in Readings :: Get(e, j, n) == Get(filled, j, n)
    {
    }
  }

  /** Selecting the model inputs keeps the crop and the readings. */
  lemma Selected(R: Frame, e: Frame, X: Frame, ks: seq<nat>)
    requires WellFormed(R) && WellFormed(e) && WellFormed(X)
    requires |e.rows| == |ks| && |X.rows| == |ks| && forall j | 0 <= j < |ks| :: ks[j] < |R.rows|
    requires FromRows(R, e, ks) && Inputs(e, X)
    ensures FromRows(R, X, ks)
  {
    forall j | 0 <= j < |ks|
      ensures Get(X, j, Crop) == Get(e, j, Crop)
      ensures forall n | n in Readings :: Get(X, j, n) == Get(e, j, n)
    {
    }
  }

  // ---------------------------------------------------------------------------
  // The diagonal of the plot

  /** The smallest value of a non-empty sequence. */
  function Min(s: seq<real>): (m: real)
    requires |s| > 0
    ensures m in s && forall k | 0 <= k < |s| :: m <= s[k]
  {
    if |s| == 1 then s[0]
    else
      var rest := Min(s[1..]);
      assert forall k | 1 <= k < |s| :: s[k] == s[1..][k - 1];
      if s[0] <= rest then s[0] else rest
  }

  /** The largest value of a non-empty sequence. */
  function Max(s: seq<real>): (m: real)
    requires |s| > 0
    ensures m in s && forall k | 0 <= k < |s| :: s[k] <= m
  {
    if |s| == 1 then s[0]
    else
      var rest := Max(s[1..]);
      assert forall k | 1 <= k < |s| :: s[k] == s[1..][k - 1];
      if s[0] >= rest then s[0] else rest
  }

  /**
   * `min_val`, `max_val` of the perfect-fit line: `min()` of an empty column
   * raises, so there is no line without a sample. Otherwise the line spans
   * every point of the plot on both axes, and both ends are values drawn.
   */
  function Diagonal(truth: seq<real>, predicted: seq<real>): (r: Option<(real, real)>)
    ensures r.Some? <==> |truth| > 0 && |predicted| > 0
    ensures r.Some? ==> r.value.0 <= r.value.1
    ensures r.Some? ==> forall k | 0 <= k < |truth| :: r.value.0 <= truth[k] <= r.value.1
    ensures r.Some? ==> forall k | 0 <= k < |predicted| :: r.value.0 <= predicted[k] <= r.value.1
    ensures r.Some? ==> (r.value.0 in truth || r.value.0 in predicted) && (r.value.1 in truth || r.value.1 in predicted)
  {
    if |truth| == 0 || |predicted| == 0 then None
    else
      var lo := if Min(truth) <= Min(predicted) then Min(truth) else Min(predicted);
      var hi := if Max(truth) >= Max(predicted) then Max(truth) else Max(predicted);
      Some((lo, hi))
  }
}
