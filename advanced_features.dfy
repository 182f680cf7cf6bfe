/**
 * The feature engineering of the advanced models: `create_features` of
 * `train_model_advanced.py`, which `compare_models.py` repeats line for line,
 * and the design matrix both scripts build from it. The arithmetic is over
 * reals; numpy's NaN propagation is kept, its floating-point rounding is not.
 */
module AdvancedFeatures {
  import opened Wrappers
  import opened Frames
  import opened Cleaning

  /** `epsilon`, added to the denominators of the two climate ratios. */
  const Eps: real := 0.000001

  const Encoded := "crop_encoded"
  const TempHumidityRatio := "temp_humidity_ratio"
  const HumidityRainfallRatio := "humidity_rainfall_ratio"
  const TempMoistureInteraction := "temp_moisture_interaction"
  const MoistureHumidityProduct := "moisture_humidity_product"
  const MoistureRainfallProduct := "moisture_rainfall_product"
  const WaterSaturationDeficit := "water_saturation_deficit"
  const SoilWaterDeficit := "soil_water_deficit"
  const NetWaterInput := "net_water_input"
  const TempSquared := "temp_squared"
  const MoistureSquared := "moisture_squared"

  /** The ten columns `create_features` adds, in the order it adds them. */
  const DerivedNames: seq<string> := [
    TempHumidityRatio, HumidityRainfallRatio, TempMoistureInteraction, MoistureHumidityProduct,
    MoistureRainfallProduct, WaterSaturationDeficit, SoilWaterDeficit, NetWaterInput,
    TempSquared, MoistureSquared]

  /** The four readings the advanced models take as they are. */
  const Raw: seq<string> := [Moisture, Temperature, Humidity, Rainfall]

  /** A step of `create_features` that can raise: looking a reading up, or computing with it. */
  datatype Check = Present(reading: string) | Numeric(reading: string)

  /**
   * The steps that can raise, in the order Python takes them: the first ratio
   * looks up the temperature and the humidity, adds epsilon to the humidity
   * and then divides the temperature; the second looks up the rainfall and
   * adds epsilon to it; the moisture is looked up, and used, only from the
   * first interaction on.
   */
  const Checks: seq<Check> := [
    Present(Temperature), Present(Humidity), Numeric(Humidity), Numeric(Temperature),
    Present(Rainfall), Numeric(Rainfall), Present(Moisture), Numeric(Moisture)]

  /** The fifteen inputs: the encoded crop, the four readings, the ten derived values. */
  const AdvancedInputs: seq<string> := [Encoded] + Raw + DerivedNames

  // ---------------------------------------------------------------------------
  // Cell arithmetic: an operand that is not a number gives NaN. Text never
  // reaches it: `CreateFeatures` refuses a reading that holds text.

  /** `a / (b + epsilon)`. */
  function Ratio(a: Cell, b: Cell): (c: Cell)
    ensures c.Num? <==> a.Num? && b.Num? && b.value + Eps != 0.0
    ensures c.Num? ==> c.value * (b.value + Eps) == a.value
  {
    if a.Num? && b.Num? && b.value + Eps != 0.0 then Num(a.value / (b.value + Eps)) else NaN
  }

  /** `a * b`. */
  function Times(a: Cell, b: Cell): (c: Cell)
    ensures c.Num? <==> a.Num? && b.Num?
  {
    if a.Num? && b.Num? then Num(a.value * b.value) else NaN
  }

  /** `a - b`. */
  function Minus(a: Cell, b: Cell): (c: Cell)
    ensures c.Num? <==> a.Num? && b.Num?
  {
    if a.Num? && b.Num? then Num(a.value - b.value) else NaN
  }

  /** `k - a` for a constant `k`. */
  function From(k: real, a: Cell): (c: Cell)
    ensures c.Num? <==> a.Num?
  {
    if a.Num? then Num(k - a.value) else NaN
  }

  /** `a / k` for a nonzero constant `k`. */
  function Over(a: Cell, k: real): (c: Cell)
    requires k != 0.0
    ensures c.Num? <==> a.Num?
  {
    if a.Num? then Num(a.value / k) else NaN
  }

  /**
   * The ten derived values of a row with moisture `m`, temperature `t`,
   * humidity `h` and rainfall `r`, in the order of `DerivedNames`.
   */
  function DerivedRow(m: Cell, t: Cell, h: Cell, r: Cell): (v: seq<Cell>)
    ensures |v| == |DerivedNames|
  {
    [Ratio(t, h), Ratio(h, r),
     Times(t, m), Times(m, h), Times(m, r),
     Times(From(100.0, h), Over(t, 25.0)),
     From(100.0, m),
     Minus(r, Over(t, 5.0)),
     Times(t, t), Times(m, m)]
  }

  /**
   * The two climate ratios of a row of numbers undo a multiplication by the
   * shifted denominator, which is nonzero for a reading that is not negative.
   */
  lemma DerivedRatios(m: real, t: real, h: real, r: real)
    ensures var v := DerivedRow(Num(m), Num(t), Num(h), Num(r));
      && (h >= 0.0 ==> v[0].Num? && v[0].value * (h + Eps) == t)
      && (r >= 0.0 ==> v[1].Num? && v[1].value * (r + Eps) == h)
  {
    var v := DerivedRow(Num(m), Num(t), Num(h), Num(r));
    assert v[0] == Ratio(Num(t), Num(h)) && v[1] == Ratio(Num(h), Num(r));
  }

  /** The interactions of a row of numbers are its products. */
  lemma DerivedProducts(m: real, t: real, h: real, r: real)
    ensures var v := DerivedRow(Num(m), Num(t), Num(h), Num(r));
      && v[2] == Num(t * m) && v[3] == Num(m * h) && v[4] == Num(m * r)
      && v[5] == Num((100.0 - h) * (t / 25.0))
  {
    var v := DerivedRow(Num(m), Num(t), Num(h), Num(r));
    assert v[2] == Times(Num(t), Num(m)) && v[3] == Times(Num(m), Num(h)) && v[4] == Times(Num(m), Num(r));
    assert v[5] == Times(From(100.0, Num(h)), Over(Num(t), 25.0));
  }

  /** The squares of a row of numbers are not negative. */
  lemma DerivedSquares(m: real, t: real, h: real, r: real)
    ensures var v := DerivedRow(Num(m), Num(t), Num(h), Num(r));
      && v[8].Num? && v[8].value == t * t && v[8].value >= 0.0
      && v[9].Num? && v[9].value == m * m && v[9].value >= 0.0
  {
    var v := DerivedRow(Num(m), Num(t), Num(h), Num(r));
    assert v[8] == Times(Num(t), Num(t)) && v[9] == Times(Num(m), Num(m));
    Square(t);
    Square(m);
  }

  /** The soil deficit completes the moisture to 100; the net input plus a fifth of the temperature is the rainfall. */
  lemma DerivedBalances(m: real, t: real, h: real, r: real)
    ensures var v := DerivedRow(Num(m), Num(t), Num(h), Num(r));
      && v[6].Num? && v[6].value + m == 100.0
      && v[7].Num? && v[7].value + t / 5.0 == r
  {
    var v := DerivedRow(Num(m), Num(t), Num(h), Num(r));
    assert v[6] == From(100.0, Num(m)) && v[7] == Minus(Num(r), Over(Num(t), 5.0));
  }

  lemma Square(x: real)
    ensures x * x >= 0.0
  {
    if x < 0.0 {
      assert x * x == (-x) * (-x);
    }
  }

  /** A missing reading makes exactly the derived values that use it missing. */
  lemma DerivedNaN(m: Cell, t: Cell, h: Cell, r: Cell)
    ensures var v := DerivedRow(m, t, h, r);
      && (m.NaN? ==> v[2].NaN? && v[3].NaN? && v[4].NaN? && v[6].NaN? && v[9].NaN?)
      && (t.NaN? ==> v[0].NaN? && v[2].NaN? && v[5].NaN? && v[7].NaN? && v[8].NaN?)
      && (h.NaN? ==> v[0].NaN? && v[1].NaN? && v[3].NaN? && v[5].NaN?)
      && (r.NaN? ==> v[1].NaN? && v[4].NaN? && v[7].NaN?)
      && (m.Num? && t.Num? && h.Num? && r.Num? && h.value >= 0.0 && r.value >= 0.0 ==>
            forall k | 0 <= k < |v| :: v[k].Num?)
  {
  }

  /** A column a derived value can be computed from: it exists and holds no text. */
  predicate Usable(f: Frame, n: string)
    requires WellFormed(f)
  {
    n in f.names && !HasText(Column(f, n))
  }

  /** Whether step `c` goes through on `f`. */
  predicate Passes(f: Frame, c: Check)
    requires WellFormed(f)
  {
    match c
    case Present(n) => n in f.names
    case Numeric(n) => Usable(f, n)
  }

  /** The position in `cs` of the first step that raises. */
  function FirstFailing(f: Frame, cs: seq<Check>): (r: Option<nat>)
    requires WellFormed(f)
    ensures r.None? <==> forall k | 0 <= k < |cs| :: Passes(f, cs[k])
    ensures r.Some? ==> r.value < |cs| && !Passes(f, cs[r.value]) && forall j | 0 <= j < r.value :: Passes(f, cs[j])
  {
    if cs == [] then None
    else if !Passes(f, cs[0]) then Some(0)
    else match FirstFailing(f, cs[1..]) {
      case None => None
      case Some(k) => Some(k + 1)
    }
  }

  /** The error pandas raises on an unusable column: a KeyError, or a TypeError at its first text. */
  function Unusable(f: Frame, n: string): (e: Fault)
    requires WellFormed(f) && !Usable(f, n)
    ensures n !in f.names <==> e == MissingColumn(n)
    ensures n in f.names ==> e == NotNumeric(n, FirstText(Column(f, n)).value)
  {
    if n !in f.names then MissingColumn(n) else NotNumeric(n, FirstText(Column(f, n)).value)
  }

  /** The error a step raises: a KeyError on a lookup, a TypeError on arithmetic with text. */
  function Raised(f: Frame, c: Check): (e: Fault)
    requires WellFormed(f) && !Passes(f, c)
    ensures c.Present? ==> e == MissingColumn(c.reading)
    ensures c.Numeric? ==> e == Unusable(f, c.reading)
  {
    match c
    case Present(n) => MissingColumn(n)
    case Numeric(n) => Unusable(f, n)
  }

  /**
   * `create_features` fails on `f` with `e` when the steps before the `k`-th
   * go through and the `k`-th raises `e`.
   */
  predicate FailsAt(f: Frame, k: nat, e: Fault)
    requires WellFormed(f)
  {
    && k < |Checks| && !Passes(f, Checks[k])
    && (forall j | 0 <= j < k :: Passes(f, Checks[j]))
    && e == Raised(f, Checks[k])
  }

  /** The derived columns: column `k` holds derived value `k` of every row. */
  function DerivedColumns(f: Frame): (cols: seq<seq<Cell>>)
    requires WellFormed(f)
    requires forall n | n in Raw :: n in f.names
    ensures |cols| == |DerivedNames|
    ensures forall k | 0 <= k < |cols| :: |cols[k]| == |f.rows|
    ensures forall i, k | 0 <= i < |f.rows| && 0 <= k < |cols| :: cols[k][i] == DerivedRow(
      Get(f, i, Moisture), Get(f, i, Temperature), Get(f, i, Humidity), Get(f, i, Rainfall))[k]
  {
    assert Moisture in Raw && Temperature in Raw && Humidity in Raw && Rainfall in Raw;
    var rows := seq(|f.rows|, i requires 0 <= i < |f.rows| =>
      DerivedRow(Get(f, i, Moisture), Get(f, i, Temperature), Get(f, i, Humidity), Get(f, i, Rainfall)));
    seq(|DerivedNames|, k requires 0 <= k < |DerivedNames| =>
      seq(|f.rows|, i requires 0 <= i < |f.rows| => rows[i][k]))
  }

  /**
   * `g` keeps the rows of `f`: every column of `f` is still there, and the
   * ones that are not derived names keep their cells.
   */
  predicate Keeps(f: Frame, g: Frame)
    requires WellFormed(f) && WellFormed(g)
  {
    && |g.rows| == |f.rows| && (forall n | n in f.names :: n in g.names)
    && forall i, n | 0 <= i < |f.rows| && n in f.names && n !in DerivedNames && n in g.names ::
         Get(g, i, n) == Get(f, i, n)
  }

  /**
   * Row `i` of `g` holds, under the derived names, the ten derived values of
   * the readings in row `i` of `f`.
   */
  predicate Derives(f: Frame, g: Frame)
    requires WellFormed(f) && WellFormed(g)
  {
    && |g.rows| == |f.rows| && (forall n | n in Raw :: n in f.names) && (forall n | n in DerivedNames :: n in g.names)
    && forall i, k | 0 <= i < |f.rows| && 0 <= k < |DerivedNames| ::
         Get(g, i, DerivedNames[k]) ==
         DerivedRow(Get(f, i, Moisture), Get(f, i, Temperature), Get(f, i, Humidity), Get(f, i, Rainfall))[k]
  }

  /**
   * `create_features(data)`: on a copy, the ten derived columns are assigned
   * in turn. It needs the four readings as numbers (a KeyError or a TypeError
   * otherwise). The columns already there keep their values unless they are
   * derived names, the derived columns hold the row's derived values, and on
   * a frame without derived names exactly the ten are appended, in order.
   */
  function CreateFeatures(f: Frame): (r: Result<Frame, Fault>)
    requires WellFormed(f)
    ensures r.Success? <==> forall n | n in Raw :: Usable(f, n)
    ensures r.Failure? ==> exists k: nat :: FailsAt(f, k, r.error)
    ensures r.Success? ==> WellFormed(r.value) && Keeps(f, r.value) && Derives(f, r.value)
    ensures r.Success? && (forall n | n in DerivedNames :: n !in f.names) ==> r.value.names == f.names + DerivedNames
  {
    ChecksAreRaw(f);
    match FirstFailing(f, Checks)
    case Some(k) =>
      FirstFails(f, k);
      Failure(Raised(f, Checks[k]))
    case None => Success(WithDerived(f))
  }

  /** The ten assignments of `create_features` on a frame with the four readings. */
  function WithDerived(f: Frame): (g: Frame)
    requires WellFormed(f) && forall n | n in Raw :: n in f.names
    ensures WellFormed(g) && Keeps(f, g) && Derives(f, g)
    ensures (forall n | n in DerivedNames :: n !in f.names) ==> g.names == f.names + DerivedNames
  {
    DerivedDistinct();
    var g := AssignAll(f, DerivedNames, DerivedColumns(f));
    Created(f, g);
    CreatedCells(f, g, DerivedColumns(f));
    g
  }

  /** The first step that raises is where `create_features` fails. */
  lemma FirstFails(f: Frame, k: nat)
    requires WellFormed(f) && FirstFailing(f, Checks) == Some(k)
    ensures k < |Checks| && !Passes(f, Checks[k]) && FailsAt(f, k, Raised(f, Checks[k]))
  {
  }

  /** Every step goes through exactly when the four readings are usable. */
  lemma ChecksAreRaw(f: Frame)
    requires WellFormed(f)
    ensures (forall k | 0 <= k < |Checks| :: Passes(f, Checks[k])) <==> forall n | n in Raw :: Usable(f, n)
  {
    assert Checks[3] == Numeric(Temperature) && Checks[2] == Numeric(Humidity);
    assert Checks[5] == Numeric(Rainfall) && Checks[7] == Numeric(Moisture);
    if forall n | n in Raw :: Usable(f, n) {
      forall k | 0 <= k < |Checks|
        ensures Passes(f, Checks[k])
      {
        assert Checks[k].reading in Raw;
      }
    }
  }

  /** Assigning the ten derived columns keeps the other columns and appends the ten to a frame without them. */
  lemma Created(f: Frame, g: Frame)
    requires WellFormed(f) && (forall n | n in Raw :: n in f.names) && Distinct(DerivedNames)
    requires g == AssignAll(f, DerivedNames, DerivedColumns(f))
    ensures WellFormed(g) && Keeps(f, g) && forall n | n in DerivedNames :: n in g.names
    ensures (forall n | n in DerivedNames :: n !in f.names) ==> g.names == f.names + DerivedNames
  {
  }

  /** Columns that hold the derived values, assigned under the derived names, derive them. */
  lemma CreatedCells(f: Frame, g: Frame, cols: seq<seq<Cell>>)
    requires WellFormed(f) && (forall n | n in Raw :: n in f.names)
    requires WellFormed(g) && |g.rows| == |f.rows| && forall n | n in DerivedNames :: n in g.names
    requires |cols| == |DerivedNames| && forall k | 0 <= k < |cols| :: |cols[k]| == |f.rows|
    requires forall i, k | 0 <= i < |f.rows| && 0 <= k < |DerivedNames| :: Get(g, i, DerivedNames[k]) == cols[k][i]
    requires forall i, k | 0 <= i < |f.rows| && 0 <= k < |cols| :: cols[k][i] == DerivedRow(
      Get(f, i, Moisture), Get(f, i, Temperature), Get(f, i, Humidity), Get(f, i, Rainfall))[k]
    ensures Derives(f, g)
  {
  }

  lemma DerivedDistinct()
    ensures Distinct(DerivedNames)
  {
  }

  /** The fifteen advanced inputs are distinct names: crop code first, the four readings, then the ten derived values. */
  lemma InputsLayout()
    ensures |AdvancedInputs| == 15 && Distinct(AdvancedInputs)
    ensures AdvancedInputs[0] == Encoded && AdvancedInputs[1..5] == Raw && AdvancedInputs[5..] == DerivedNames
  {
  }

  /** The names the pipeline keeps apart: target, crop, code, readings and derived values. */
  lemma NamesApart()
    ensures Water != Crop && Water != Encoded && Crop != Encoded
    ensures Water !in Raw && Encoded !in Raw && Crop !in Raw
    ensures Water !in DerivedNames && Encoded !in DerivedNames
    ensures forall n | n in Raw :: n !in DerivedNames
  {
    assert Water[0] != Crop[0] && Water[0] != Encoded[0];
    assert Crop[5] != Encoded[5];
  }

  /** Two frames that agree on a column's cells have the same column. */
  lemma SameColumn(f: Frame, g: Frame, n: string)
    requires WellFormed(f) && WellFormed(g) && n in f.names && n in g.names && |f.rows| == |g.rows|
    requires forall i | 0 <= i < |f.rows| :: Get(f, i, n) == Get(g, i, n)
    ensures Column(f, n) == Column(g, n)
  {
  }

  /** LabelEncoder codes as a column of numbers. */
  function CodeCells(codes: seq<nat>): (c: seq<Cell>)
    ensures |c| == |codes| && forall i | 0 <= i < |codes| :: c[i] == Num(codes[i] as real)
  {
    seq(|codes|, i requires 0 <= i < |codes| => Num(codes[i] as real))
  }

  /**
   * The design matrix of the advanced scripts, row by row: the crop code, the
   * four readings as they are, their ten derived values in `DerivedNames`
   * order, and the target scaled by `scale`.
   */
  predicate Designed(f: Frame, codes: seq<nat>, scale: real, X: Frame, y: seq<Cell>)
    requires WellFormed(f) && WellFormed(X)
  {
    && |codes| == |f.rows| && |X.rows| == |f.rows| && |y| == |f.rows|
    && X.names == AdvancedInputs
    && Water in f.names && (forall n | n in Raw :: n in f.names)
    && (forall i | 0 <= i < |f.rows| :: Get(X, i, Encoded) == Num(codes[i] as real))
    && (forall i, n | 0 <= i < |f.rows| && n in Raw :: Get(X, i, n) == Get(f, i, n))
    && Derives(f, X)
    && (forall i | 0 <= i < |f.rows| :: y[i] == ScaleCell(Get(f, i, Water), scale))
  }

  /** A frame whose target can be scaled and whose crops can be encoded. */
  predicate Encodable(f: Frame)
    requires WellFormed(f)
  {
    Water in f.names && !HasText(Column(f, Water)) && Crop in f.names
  }

  /** A frame whose target parses, with a crop column and four numeric readings. */
  predicate Assemblable(f: Frame)
    requires WellFormed(f)
  {
    Encodable(f) && forall n | n in Raw :: Usable(f, n)
  }

  /**
   * From the loaded frame to `X` and `y` in the advanced scripts:
   * `df[target] = df[target] * scale`, `df['crop_encoded'] =
   * fit_transform(df['crop_type'])`, `create_features(df)`, then
   * `X = df_engineered[columns]` and `y = df_engineered[target]`. The
   * LabelEncoder is the parameter `encoder`. It fails with the first error
   * pandas raises: the target (missing or text), the crop column, then the
   * readings.
   */
  method Assemble(f: Frame, encoder: seq<Cell> -> seq<nat>, scale: real, columns: seq<string>)
    returns (r: Result<Training, Fault>)
    requires WellFormed(f) && columns == AdvancedInputs
    requires forall c: seq<Cell> :: |encoder(c)| == |c|
    ensures r.Success? <==> Assemblable(f)
    ensures Water !in f.names ==> r == Failure(MissingColumn(Water))
    ensures Water in f.names && HasText(Column(f, Water)) ==>
      r == Failure(NotNumeric(Water, FirstText(Column(f, Water)).value))
    ensures Water in f.names && !HasText(Column(f, Water)) && Crop !in f.names ==> r == Failure(MissingColumn(Crop))
    ensures r.Failure? && Encodable(f) ==> exists k: nat :: FailsAt(f, k, r.error)
    ensures r.Success? ==> WellFormed(r.value.features)
    ensures r.Success? ==> Designed(f, encoder(Column(f, Crop)), scale, r.value.features, r.value.target)
  {
    NamesApart();
    var s :- ScaleColumn(f, Water, scale);
    if Crop !in s.names {
      return Failure(MissingColumn(Crop));
    }
    SameColumn(s, f, Crop);
    var codes := encoder(Column(s, Crop));
    var t := Assign(s, Encoded, CodeCells(codes));
    ReadingsKept(f, t);
    r := Design(t, columns);
    if r.Failure? {
      ghost var k: nat :| FailsAt(t, k, r.error);
      assert FailsAt(f, k, r.error);
    }
    if r.Success? {
      Composed(f, codes, scale, t, r.value.features, r.value.target);
    }
  }

  /**
   * The rows of `X` hold the crop code and readings of `t` and the derived
   * values of `t`'s readings, in the order of `AdvancedInputs`; `y` is `t`'s target.
   */
  predicate Built(t: Frame, X: Frame, y: seq<Cell>)
    requires WellFormed(t) && WellFormed(X)
    requires Water in t.names && Encoded in t.names && forall n | n in Raw :: n in t.names
  {
    && |X.rows| == |t.rows| && X.names == AdvancedInputs && y == Column(t, Water)
    && (forall i | 0 <= i < |t.rows| :: Get(X, i, Encoded) == Get(t, i, Encoded))
    && (forall i, n | 0 <= i < |t.rows| && n in Raw :: Get(X, i, n) == Get(t, i, n))
    && Derives(t, X)
  }

  /**
   * `df_engineered = create_features(df)`, `X = df_engineered[columns]`,
   * `y = df_engineered[target]` on the scaled, encoded frame `t`.
   */
  method Design(t: Frame, columns: seq<string>) returns (r: Result<Training, Fault>)
    requires WellFormed(t) && columns == AdvancedInputs && Water in t.names && Encoded in t.names
    ensures r.Success? <==> forall n | n in Raw :: Usable(t, n)
    ensures r.Failure? ==> exists k: nat :: FailsAt(t, k, r.error)
    ensures r.Success? ==> forall n | n in Raw :: n in t.names
    ensures r.Success? ==> WellFormed(r.value.features) && Built(t, r.value.features, r.value.target)
  {
    NamesApart();
    var e :- CreateFeatures(t);
    InputsLayout();
    assert Encoded in columns && forall n | n in Raw :: n in columns;
    var X := Select(e, columns).value;
    BuiltBySelecting(t, e, X);
    return Success(Training(X, Column(e, Water)));
  }

  /** Selecting the fifteen inputs from what `create_features` made of `t` builds `X` and `y`. */
  lemma BuiltBySelecting(t: Frame, e: Frame, X: Frame)
    requires WellFormed(t) && WellFormed(e) && WellFormed(X)
    requires Water in t.names && Encoded in t.names && forall n | n in Raw :: n in t.names
    requires Keeps(t, e) && Derives(t, e)
    requires X.names == AdvancedInputs && |X.rows| == |e.rows|
    requires forall i, n | 0 <= i < |e.rows| && n in AdvancedInputs :: n in e.names && Get(X, i, n) == Get(e, i, n)
    ensures Built(t, X, Column(e, Water))
  {
    NamesApart();
    InputsLayout();
    assert forall k | 0 <= k < |DerivedNames| :: DerivedNames[k] in AdvancedInputs;
    SameColumn(e, t, Water);
    DerivesSelected(t, e, X);
  }

  /** Selecting columns that include the derived names keeps what they derive. */
  lemma DerivesSelected(t: Frame, e: Frame, X: Frame)
    requires WellFormed(t) && WellFormed(e) && WellFormed(X) && Derives(t, e)
    requires |X.rows| == |e.rows| && forall n | n in DerivedNames :: n in X.names
    requires forall i, n | 0 <= i < |e.rows| && n in X.names :: n in e.names && Get(X, i, n) == Get(e, i, n)
    ensures Derives(t, X)
  {
    forall i, k | 0 <= i < |t.rows| && 0 <= k < |DerivedNames|
      ensures Get(X, i, DerivedNames[k]) ==
        DerivedRow(Get(t, i, Moisture), Get(t, i, Temperature), Get(t, i, Humidity), Get(t, i, Rainfall))[k]
    {
      assert DerivedNames[k] in X.names;
    }
  }

  /** Derived values depend only on the readings: a frame with the same readings derives the same. */
  lemma DerivesSameReadings(f: Frame, t: Frame, X: Frame)
    requires WellFormed(f) && WellFormed(t) && WellFormed(X) && Derives(t, X)
    requires |t.rows| == |f.rows| && forall n | n in Raw :: n in f.names
    requires forall i, n | 0 <= i < |f.rows| && n in Raw :: n in t.names && Get(t, i, n) == Get(f, i, n)
    ensures Derives(f, X)
  {
    assert Moisture in Raw && Temperature in Raw && Humidity in Raw && Rainfall in Raw;
  }

  /** A frame that agrees with `f` on the readings can use exactly the readings `f` can. */
  lemma ReadingsKept(f: Frame, t: Frame)
    requires WellFormed(f) && WellFormed(t) && |t.rows| == |f.rows|
    requires forall n | n in f.names :: n in t.names
    requires forall n | n in t.names :: n in f.names || n == Encoded
    requires forall i, m | 0 <= i < |f.rows| && m in f.names && m != Encoded && m != Water :: Get(t, i, m) == Get(f, i, m)
    ensures forall k | 0 <= k < |Checks| :: Passes(t, Checks[k]) == Passes(f, Checks[k])
    ensures forall k: nat, e :: FailsAt(t, k, e) == FailsAt(f, k, e)
    ensures forall n | n in Raw :: Usable(t, n) == Usable(f, n)
  {
    NamesApart();
    forall n | n in Raw && n in f.names
      ensures Column(t, n) == Column(f, n)
    {
      SameColumn(t, f, n);
    }
    forall k | 0 <= k < |Checks|
      ensures Passes(t, Checks[k]) == Passes(f, Checks[k])
      ensures !Passes(f, Checks[k]) ==> Raised(t, Checks[k]) == Raised(f, Checks[k])
    {
      var n := Checks[k].reading;
      assert n in Raw;
      if n in f.names {
        SameColumn(t, f, n);
      }
    }
  }

  /** The steps of `Assemble` compose to `Designed`. */
  lemma Composed(f: Frame, codes: seq<nat>, scale: real, t: Frame, X: Frame, y: seq<Cell>)
    requires WellFormed(f) && WellFormed(t) && WellFormed(X)
    requires |codes| == |f.rows| && |t.rows| == |f.rows|
    requires Water in f.names && forall n | n in Raw :: n in f.names
    requires Water in t.names && Encoded in t.names && forall n | n in Raw :: n in t.names
    requires forall i | 0 <= i < |f.rows| :: Get(t, i, Encoded) == Num(codes[i] as real)
    requires forall i | 0 <= i < |f.rows| :: Get(t, i, Water) == ScaleCell(Get(f, i, Water), scale)
    requires forall i, n | 0 <= i < |f.rows| && n in Raw :: Get(t, i, n) == Get(f, i, n)
    requires Built(t, X, y)
    ensures Designed(f, codes, scale, X, y)
  {
    DerivesSameReadings(f, t, X);
  }
}
