/**
 * The data-preparation steps the training and checking scripts repeat: the
 * standard column names, crop-name cleanup, numeric coercion, the
 * `crop_water_base` feature and the per-row `calculate_water` target.
 */
module Cleaning {
  import opened Wrappers
  import opened Frames
  import CropTable
  import Target

  const Crop := "crop_type"
  const Moisture := "soil_moisture_percent"
  const Temperature := "temperature_celsius"
  const Humidity := "humidity_percent"
  const Rainfall := "rainfall_mm"
  const Base := "crop_water_base"
  const Water := "water_requirement_liters_per_hectare"

  /** The six model inputs, in the order training and serving agree on. */
  const ModelInputs: seq<string> := [Crop, Moisture, Temperature, Humidity, Rainfall, Base]

  /** The three measured readings the scripts coerce to numbers. */
  const Readings: seq<string> := [Temperature, Humidity, Rainfall]

  /** The rename the scripts apply to the raw Kaggle-style column names. */
  const StandardNames: map<string, string> :=
    map["label" := Crop, "temperature" := Temperature, "humidity" := Humidity, "rainfall" := Rainfall]

  /**
   * `if 'label' in df.columns: df.rename(columns=...)`: only a frame with a
   * `label` column gets the standard names; any other frame is kept as read.
   */
  function RenameIfLabelled(f: Frame): (r: Result<Frame, Fault>)
    requires WellFormed(f)
    ensures "label" !in f.names ==> r == Success(f)
    ensures "label" in f.names ==> r == Rename(f, StandardNames)
    ensures "label" in f.names && r.Success? ==> Crop in r.value.names
  {
    if "label" in f.names then
      var r := Rename(f, StandardNames);
      assert r.Success? ==> RenamedName(StandardNames, "label") in r.value.names by {
        if r.Success? && |f.rows| == 0 {
          var k := IndexOf(f.names, "label");
          assert r.value.names[k] == Crop;
        }
      }
      r
    else Success(f)
  }

  /** A frame that holds none of the raw names comes out of the rename unchanged. */
  lemma RenameWithoutRawNames(f: Frame)
    requires WellFormed(f) && forall n | n in StandardNames :: n !in f.names
    ensures Rename(f, StandardNames) == Success(f)
  {
    assert RenameAll(StandardNames, f.names) == f.names;
  }

  /**
   * The unconditional rename of the training scripts and the conditional one
   * of the checking scripts agree on a frame with a `label` column and on a
   * frame with none of the raw names.
   */
  lemma RenamingsAgree(f: Frame)
    requires WellFormed(f)
    requires "label" in f.names || forall n | n in StandardNames :: n !in f.names
    ensures RenameIfLabelled(f) == Rename(f, StandardNames)
  {
    if "label" !in f.names {
      RenameWithoutRawNames(f);
    }
  }

  /** They disagree on a frame with a raw `temperature` column and no `label`. */
  lemma RenamingsDiffer()
    ensures var f := Frame(["crop_type", "temperature"], []);
      RenameIfLabelled(f) == Success(f)
      && Rename(f, StandardNames).Success?
      && Rename(f, StandardNames).value.names == ["crop_type", "temperature_celsius"]
  {
    var f := Frame(["crop_type", "temperature"], []);
    assert RenameAll(StandardNames, f.names) == ["crop_type", "temperature_celsius"];
  }

  /** The first row repeats the header: its crop is the literal text `crop_type`. */
  predicate DuplicateHeader(f: Frame)
    requires WellFormed(f) && |f.rows| > 0 && Crop in f.names
  {
    Get(f, 0, Crop) == Text("crop_type")
  }

  /**
   * `df.drop(0).reset_index(drop=True)` when the first row is a duplicated
   * header: exactly that row goes and the others keep their order; otherwise
   * no row goes.
   */
  function Deduplicated(f: Frame): (r: Frame)
    requires WellFormed(f) && |f.rows| > 0 && Crop in f.names
    ensures WellFormed(r) && r.names == f.names
    ensures DuplicateHeader(f) <==> |r.rows| == |f.rows| - 1
    ensures !DuplicateHeader(f) ==> r == f
    ensures r.rows == f.rows[|f.rows| - |r.rows|..]
  {
    if DuplicateHeader(f) then DropFirstRow(f) else f
  }

  /** What a preparation script hands to training: the feature frame and the target column. */
  datatype Training = Training(features: Frame, target: seq<Cell>)

  // ---------------------------------------------------------------------------
  // Crop names

  /** A `.str` method applied to one cell: text is rewritten, a number or NaN is kept. */
  function CleanCell(c: Cell, clean: string -> string): (r: Cell)
    ensures r.Text? <==> c.Text?
    ensures c.Text? ==> r.text == clean(c.text)
    ensures !c.Text? ==> r == c
  {
    if c.Text? then Text(clean(c.text)) else c
  }

  predicate HasText(c: seq<Cell>) {
    exists i | 0 <= i < |c| :: c[i].Text?
  }

  /**
   * `df['crop_type'] = df['crop_type'].str.<clean>()`: a KeyError without the
   * column; an AttributeError when a non-empty column holds no text (pandas
   * then gives it a numeric dtype, which has no `.str`).
   */
  function CleanCrops(f: Frame, clean: string -> string): (r: Result<Frame, Fault>)
    requires WellFormed(f)
    ensures r.Failure? <==> Crop !in f.names || (|f.rows| > 0 && !HasText(Column(f, Crop)))
    ensures r.Failure? ==> r.error == if Crop in f.names then NoStrings(Crop) else MissingColumn(Crop)
    ensures r.Success? ==> WellFormed(r.value) && r.value.names == f.names && |r.value.rows| == |f.rows|
    ensures r.Success? ==> forall i, n | 0 <= i < |f.rows| && n in f.names ::
      Get(r.value, i, n) == if n == Crop then CleanCell(Get(f, i, n), clean) else Get(f, i, n)
  {
    if Crop !in f.names then Failure(MissingColumn(Crop))
    else if |f.rows| > 0 && !HasText(Column(f, Crop)) then Failure(NoStrings(Crop))
    else Success(MapColumn(f, Crop, c => CleanCell(c, clean)))
  }

  // ---------------------------------------------------------------------------
  // Numeric columns

  lemma FirstMissingAt(cols: seq<string>, names: seq<string>, k: nat)
    requires k < |cols| && cols[k] !in names
    requires forall j | 0 <= j < k :: cols[j] in names
    ensures FirstMissing(cols, names) == Some(cols[k])
  {
    if k > 0 {
      FirstMissingAt(cols[1..], names, k - 1);
    }
  }

  /**
   * `for col in cols: df[col] = pd.to_numeric(df[col], errors='coerce')`:
   * in the listed columns numbers stay and everything else becomes NaN; the
   * first listed column that does not exist raises a KeyError.
   */
  method CoerceColumns(f: Frame, cols: seq<string>) returns (r: Result<Frame, Fault>)
    requires WellFormed(f)
    ensures r.Success? <==> forall n | n in cols :: n in f.names
    ensures r.Failure? ==> r.error.MissingColumn? && FirstMissing(cols, f.names) == Some(r.error.column)
    ensures r.Success? ==> WellFormed(r.value) && r.value.names == f.names && |r.value.rows| == |f.rows|
    ensures r.Success? ==> forall i, n | 0 <= i < |f.rows| && n in f.names ::
      Get(r.value, i, n) == if n in cols then ToNumeric(Get(f, i, n)) else Get(f, i, n)
  {
    var df := f;
    for k := 0 to |cols|
      invariant WellFormed(df) && df.names == f.names && |df.rows| == |f.rows|
      invariant forall j | 0 <= j < k :: cols[j] in f.names
      invariant forall i, n | 0 <= i < |f.rows| && n in f.names ::
        Get(df, i, n) == if n in cols[..k] then ToNumeric(Get(f, i, n)) else Get(f, i, n)
    {
      if cols[k] !in df.names {
        FirstMissingAt(cols, f.names, k);
        return Failure(MissingColumn(cols[k]));
      }
      assert cols[..k + 1] == cols[..k] + [cols[k]];
      df := MapColumn(df, cols[k], ToNumeric);
    }
    assert cols[..|cols|] == cols;
    return Success(df);
  }

  /** The first row whose cell is text. */
  function FirstText(c: seq<Cell>): (r: Option<nat>)
    ensures r.None? <==> !HasText(c)
    ensures r.Some? ==> r.value < |c| && c[r.value].Text? && forall j | 0 <= j < r.value :: !c[j].Text?
  {
    if c == [] then None
    else if c[0].Text? then Some(0)
    else match FirstText(c[1..]) {
      case None => None
      case Some(j) => Some(j + 1)
    }
  }

  /**
   * `for c in cols: df[c] = pd.to_numeric(df[c])`, strict: text that is not a
   * number raises a ValueError naming the first such row of the first such
   * column; when every listed column parses, no value changes.
   */
  method ParseColumns(f: Frame, cols: seq<string>) returns (r: Result<Frame, Fault>)
    requires WellFormed(f)
    ensures r.Success? <==> forall n | n in cols :: n in f.names && !HasText(Column(f, n))
    ensures r.Success? ==> r.value == f
    ensures r.Failure? ==> exists k | 0 <= k < |cols| ::
      && (forall j | 0 <= j < k :: cols[j] in f.names && !HasText(Column(f, cols[j])))
      && (cols[k] in f.names ==> HasText(Column(f, cols[k])))
      && r.error == if cols[k] !in f.names then MissingColumn(cols[k])
                    else NotNumeric(cols[k], FirstText(Column(f, cols[k])).value)
  {
    for k := 0 to |cols|
      invariant forall j | 0 <= j < k :: cols[j] in f.names && !HasText(Column(f, cols[j]))
    {
      if cols[k] !in f.names {
        return Failure(MissingColumn(cols[k]));
      }
      match FirstText(Column(f, cols[k]))
      case Some(i) =>
        return Failure(NotNumeric(cols[k], i));
      case None =>
    }
    return Success(f);
  }

  /** A number times `factor`; NaN stays NaN. */
  function ScaleCell(c: Cell, factor: real): (r: Cell)
    ensures r.Num? <==> c.Num?
    ensures c.Num? ==> r.value == c.value * factor
    ensures !c.Num? ==> r == c
  {
    if c.Num? then Num(c.value * factor) else c
  }

  /**
   * `df[n] = df[n] * factor`: every number of the column is multiplied, NaN
   * stays NaN; a KeyError without the column and a TypeError when the column
   * holds text.
   */
  function ScaleColumn(f: Frame, n: string, factor: real): (r: Result<Frame, Fault>)
    requires WellFormed(f)
    ensures r.Success? <==> n in f.names && !HasText(Column(f, n))
    ensures r.Failure? ==> r.error == if n in f.names then NotNumeric(n, FirstText(Column(f, n)).value) else MissingColumn(n)
    ensures r.Success? ==> WellFormed(r.value) && r.value.names == f.names && |r.value.rows| == |f.rows|
    ensures r.Success? ==> forall i, m | 0 <= i < |f.rows| && m in f.names ::
      && (m == n ==> Get(r.value, i, m) == ScaleCell(Get(f, i, m), factor))
      && (m != n ==> Get(r.value, i, m) == Get(f, i, m))
  {
    if n !in f.names then Failure(MissingColumn(n))
    else match FirstText(Column(f, n)) {
      case Some(i) => Failure(NotNumeric(n, i))
      case None => Success(MapColumn(f, n, (c: Cell) => ScaleCell(c, factor)))
    }
  }

  // ---------------------------------------------------------------------------
  // The crop_water_base feature

  /** `df['crop_type'].map(table)` on one cell: the listed value, or NaN. */
  function MappedBase(table: map<string, int>, c: Cell): (r: Cell)
    ensures r.Num? <==> c.Text? && c.text in table
    ensures r.Num? ==> r.value == table[c.text] as real
    ensures !r.Num? ==> r == NaN
  {
    if !c.Text? then NaN
    else match CropTable.MapLookup(table, c.text) {
      case Some(v) => Num(v as real)
      case None => NaN
    }
  }

  /** `.fillna(default)` on one cell: a missing value becomes the default, anything else stays. */
  function FillDefault(c: Cell, default: int): (r: Cell)
    ensures !r.NaN?
    ensures c.NaN? ==> r == Num(default as real)
    ensures !c.NaN? ==> r == c
  {
    if c.NaN? then Num(default as real) else c
  }

  /** `table.get(row['crop_type'], default)`: a number or NaN is never a key of the table. */
  function FormulaBase(table: map<string, int>, c: Cell, default: int): (b: int)
    ensures c.Text? ==> b == CropTable.GetOr(table, c.text, default)
    ensures !c.Text? ==> b == default
  {
    if c.Text? then CropTable.GetOr(table, c.text, default) else default
  }

  /**
   * The `crop_water_base` column, built with `map` + `fillna`, holds exactly
   * the base `calculate_water` looks up with `get`.
   */
  lemma ColumnBaseIsFormulaBase(table: map<string, int>, c: Cell, default: int)
    ensures FillDefault(MappedBase(table, c), default) == Num(FormulaBase(table, c, default) as real)
  {
  }

  /** `df['crop_water_base'] = df['crop_type'].map(table).fillna(default)`. */
  function WithBase(f: Frame, table: map<string, int>, default: int): (r: Frame)
    requires WellFormed(f) && Crop in f.names
    ensures WellFormed(r) && |r.rows| == |f.rows|
    ensures r.names == Added(f.names, Base)
    ensures forall i | 0 <= i < |f.rows| :: Get(r, i, Base) == Num(FormulaBase(table, Get(f, i, Crop), default) as real)
    ensures forall i, n | 0 <= i < |f.rows| && n in f.names && n != Base :: Get(r, i, n) == Get(f, i, n)
  {
    Assign(f, Base, seq(|f.rows|, i requires 0 <= i < |f.rows| => FillDefault(MappedBase(table, Get(f, i, Crop)), default)))
  }

  /** `df['crop_water_base'] = df['crop_type'].map(table)`, without a default. */
  function WithMappedBase(f: Frame, table: map<string, int>): (r: Frame)
    requires WellFormed(f) && Crop in f.names
    ensures WellFormed(r) && |r.rows| == |f.rows|
    ensures r.names == Added(f.names, Base)
    ensures forall i | 0 <= i < |f.rows| :: Get(r, i, Base) == MappedBase(table, Get(f, i, Crop))
    ensures forall i, n | 0 <= i < |f.rows| && n in f.names && n != Base :: Get(r, i, n) == Get(f, i, n)
  {
    Assign(f, Base, seq(|f.rows|, i requires 0 <= i < |f.rows| => MappedBase(table, Get(f, i, Crop))))
  }

  /** `df[n] = values`, one number per row. */
  function WithNumbers(f: Frame, n: string, values: seq<real>): (r: Frame)
    requires WellFormed(f) && |values| == |f.rows|
    ensures WellFormed(r) && |r.rows| == |f.rows|
    ensures r.names == Added(f.names, n)
    ensures forall i | 0 <= i < |f.rows| :: Get(r, i, n) == Num(values[i])
    ensures forall i, m | 0 <= i < |f.rows| && m in f.names && m != n :: Get(r, i, m) == Get(f, i, m)
  {
    Assign(f, n, seq(|f.rows|, i requires 0 <= i < |f.rows| => Num(values[i])))
  }

  // ---------------------------------------------------------------------------
  // The calculate_water target

  /** `float(row[n])`: text raises a ValueError, a number or NaN passes through. */
  function FloatOf(f: Frame, i: int, n: string): (r: Result<Cell, Fault>)
    requires WellFormed(f) && 0 <= i < |f.rows|
    ensures r.Success? <==> n in f.names && !Get(f, i, n).Text?
    ensures r.Success? ==> r.value == Get(f, i, n)
    ensures r.Failure? ==> r.error == if n in f.names then NotNumeric(n, i) else MissingColumn(n)
  {
    if n !in f.names then Failure(MissingColumn(n))
    else if Get(f, i, n).Text? then Failure(NotNumeric(n, i))
    else Success(Get(f, i, n))
  }

  /** Row `i` has a crop column and a number in each of the four readings. */
  predicate Computable(f: Frame, i: int)
    requires WellFormed(f) && 0 <= i < |f.rows|
  {
    && Crop in f.names && Temperature in f.names && Moisture in f.names
    && Rainfall in f.names && Humidity in f.names
    && Get(f, i, Temperature).Num? && Get(f, i, Moisture).Num?
    && Get(f, i, Rainfall).Num? && Get(f, i, Humidity).Num?
  }

  /**
   * `calculate_water(row)` for row `i`: the base is looked up with `get`, the
   * readings go through `float()` in the order temperature, moisture,
   * rainfall, humidity, and `int()` of a NaN raises. `noise` is the row's
   * normal draw, or none for the noiseless variant, which behaves as a zero
   * draw.
   */
  function RowWater(f: Frame, i: int, table: map<string, int>, noise: Option<real>): (r: Result<int, Fault>)
    requires WellFormed(f) && 0 <= i < |f.rows|
    ensures r.Success? <==> Computable(f, i)
    ensures r.Success? ==> r.value >= Target.MinWater
    ensures r.Success? ==> r.value == Target.CalculateWater(
      FormulaBase(table, Get(f, i, Crop), CropTable.DefaultBase) as real,
      Get(f, i, Temperature).value, Get(f, i, Moisture).value,
      Get(f, i, Rainfall).value, Get(f, i, Humidity).value,
      if noise.Some? then noise.value else 0.0)
    ensures r.Failure? ==> r.error.MissingColumn? || (r.error.NotNumeric? && r.error.row == i) || r.error == NaNToInt(i)
    ensures r.Failure? && r.error == NaNToInt(i) <==>
      && r.Failure? && Crop in f.names && Temperature in f.names && Moisture in f.names
      && Rainfall in f.names && Humidity in f.names
      && !Get(f, i, Temperature).Text? && !Get(f, i, Moisture).Text?
      && !Get(f, i, Rainfall).Text? && !Get(f, i, Humidity).Text?
  {
    if Crop !in f.names then Failure(MissingColumn(Crop))
    else
      var base := FormulaBase(table, Get(f, i, Crop), CropTable.DefaultBase) as real;
      var t :- FloatOf(f, i, Temperature);
      var m :- FloatOf(f, i, Moisture);
      var rn :- FloatOf(f, i, Rainfall);
      var h :- FloatOf(f, i, Humidity);
      if t.NaN? || m.NaN? || rn.NaN? || h.NaN? then Failure(NaNToInt(i))
      else if noise.Some? then
        Success(Target.CalculateWater(base, t.value, m.value, rn.value, h.value, noise.value))
      else
        Target.NoiselessIsZeroNoise(base, t.value, m.value, rn.value, h.value);
        Success(Target.NoiselessWater(base, t.value, m.value, rn.value, h.value))
  }

  function NoiseAt(noise: Option<seq<real>>, i: int): Option<real>
    requires noise.Some? ==> 0 <= i < |noise.value|
  {
    if noise.Some? then Some(noise.value[i]) else None
  }

  /**
   * Rows processed in order, the first failure stopping the rest: the values
   * of all rows when every row succeeds, otherwise the first row's error.
   */
  function Collect<T, E>(rs: seq<Result<T, E>>): (r: Result<seq<T>, E>)
    ensures r.Success? <==> forall i | 0 <= i < |rs| :: rs[i].Success?
    ensures r.Success? ==> |r.value| == |rs| && forall k | 0 <= k < |rs| :: rs[k] == Success(r.value[k])
    ensures r.Failure? ==> exists i | 0 <= i < |rs| ::
      rs[i] == Failure(r.error) && forall j | 0 <= j < i :: rs[j].Success?
  {
    if rs == [] then Success([])
    else
      match rs[0]
      case Failure(e) => Failure(e)
      case Success(w) =>
        match Collect(rs[1..])
        case Failure(e) =>
          assert exists i | 0 <= i < |rs| :: rs[i] == Failure(e) && forall j | 0 <= j < i :: rs[j].Success? by {
            var i :| 0 <= i < |rs| - 1 && rs[1..][i] == Failure(e) && forall j | 0 <= j < i :: rs[1..][j].Success?;
            assert rs[i + 1] == Failure(e);
            assert forall j | 0 <= j < i + 1 :: rs[j].Success? by {
              forall j | 0 <= j < i + 1 ensures rs[j].Success? {
                if j > 0 { assert rs[j] == rs[1..][j - 1]; }
              }
            }
          }
          Failure(e)
        case Success(rest) => Success([w] + rest)
  }

  /**
   * `df.apply(calculate_water, axis=1)`: every row's target, computed in row
   * order; the first row that cannot be computed stops the whole apply.
   */
  function Targets(f: Frame, table: map<string, int>, noise: Option<seq<real>>): (r: Result<seq<int>, Fault>)
    requires WellFormed(f)
    requires noise.Some? ==> |noise.value| == |f.rows|
    ensures r.Success? <==> forall i | 0 <= i < |f.rows| :: Computable(f, i)
    ensures r.Success? ==> |r.value| == |f.rows|
    ensures r.Success? ==> forall i | 0 <= i < |f.rows| ::
      RowWater(f, i, table, NoiseAt(noise, i)) == Success(r.value[i])
    ensures r.Failure? ==> exists i | 0 <= i < |f.rows| ::
      RowWater(f, i, table, NoiseAt(noise, i)) == Failure(r.error) && forall j | 0 <= j < i :: Computable(f, j)
  {
    var rs := seq(|f.rows|, i requires 0 <= i < |f.rows| => RowWater(f, i, table, NoiseAt(noise, i)));
    assert forall i | 0 <= i < |f.rows| :: rs[i].Success? <==> Computable(f, i);
    var r := Collect(rs);
    assert r.Failure? ==> exists i | 0 <= i < |f.rows| ::
      RowWater(f, i, table, NoiseAt(noise, i)) == Failure(r.error) && forall j | 0 <= j < i :: Computable(f, j) by {
      if r.Failure? {
        var i :| 0 <= i < |rs| && rs[i] == Failure(r.error) && forall j | 0 <= j < i :: rs[j].Success?;
        assert RowWater(f, i, table, NoiseAt(noise, i)) == Failure(r.error);
      }
    }
    r
  }

  /** The target column: one integer per row, as a cell. */
  function IntCells(ws: seq<int>): (c: seq<Cell>)
    ensures |c| == |ws| && forall k | 0 <= k < |ws| :: c[k] == Num(ws[k] as real)
  {
    seq(|ws|, k requires 0 <= k < |ws| => Num(ws[k] as real))
  }

  // ---------------------------------------------------------------------------
  // The shared preparation sequence

  /**
   * The cleanup the preparation scripts share: `df['crop_type'].str.<clean>()`
   * followed by the coercion loop over `cols`. The crop column changes only
   * through `clean`, the listed columns only through the coercion.
   */
  method Standardise(f: Frame, clean: string -> string, cols: seq<string>) returns (r: Result<Frame, Fault>)
    requires WellFormed(f) && Crop !in cols
    ensures r.Success? <==>
      && Crop in f.names && (|f.rows| == 0 || HasText(Column(f, Crop)))
      && forall n | n in cols :: n in f.names
    ensures r.Failure? ==> r.error.MissingColumn? || r.error == NoStrings(Crop)
    ensures r.Success? ==> WellFormed(r.value) && r.value.names == f.names && |r.value.rows| == |f.rows|
    ensures r.Success? ==> forall i, n | 0 <= i < |f.rows| && n in f.names ::
      Get(r.value, i, n) == if n == Crop then CleanCell(Get(f, i, n), clean)
                            else if n in cols then ToNumeric(Get(f, i, n))
                            else Get(f, i, n)
    ensures r.Success? && |f.rows| > 0 ==> HasText(Column(r.value, Crop))
  {
    var cleaned := CleanCrops(f, clean);
    if cleaned.Failure? {
      return Failure(cleaned.error);
    }
    r := CoerceColumns(cleaned.value, cols);
    if r.Success? && |f.rows| > 0 {
      var i :| 0 <= i < |f.rows| && Column(f, Crop)[i].Text?;
      assert Column(r.value, Crop)[i].Text?;
    }
  }

  /** Row `i` holds a number in each of the three measured readings. */
  predicate Measured(f: Frame, i: int)
    requires WellFormed(f) && 0 <= i < |f.rows|
  {
    && Temperature in f.names && Rainfall in f.names && Humidity in f.names
    && Get(f, i, Temperature).Num? && Get(f, i, Rainfall).Num? && Get(f, i, Humidity).Num?
  }

  /**
   * Every column of `f` other than the engineered moisture and base is still
   * in `e`, with the same value in every row.
   */
  predicate Keeps(f: Frame, e: Frame)
    requires WellFormed(f) && WellFormed(e) && |e.rows| == |f.rows|
  {
    && (forall n | n in f.names :: n in e.names)
    && forall i, n | 0 <= i < |f.rows| && n in f.names && n != Moisture && n != Base && n in e.names ::
         Get(e, i, n) == Get(f, i, n)
  }

  /**
   * Row by row, `X` carries the moisture draw, numbers for the three readings
   * and the table's base for its crop, and `y` holds `calculate_water` over
   * that row (with the row's noise draw, or none).
   */
  predicate Labelled(X: Frame, y: seq<Cell>, table: map<string, int>, moisture: seq<real>, noise: Option<seq<real>>)
    requires WellFormed(X) && |y| == |X.rows| && |moisture| == |X.rows|
    requires noise.Some? ==> |noise.value| == |X.rows|
  {
    forall i | 0 <= i < |X.rows| ::
      && Crop in X.names && Moisture in X.names && Base in X.names && Measured(X, i)
      && Get(X, i, Moisture) == Num(moisture[i])
      && Get(X, i, Base) == Num(FormulaBase(table, Get(X, i, Crop), CropTable.DefaultBase) as real)
      && y[i] == Num(Target.CalculateWater(
           Get(X, i, Base).value, Get(X, i, Temperature).value, moisture[i],
           Get(X, i, Rainfall).value, Get(X, i, Humidity).value, DrawAt(noise, i)) as real)
  }

  /** The noise draw added to row `i`: zero without noise. */
  function DrawAt(noise: Option<seq<real>>, i: int): real
    requires noise.Some? ==> 0 <= i < |noise.value|
  {
    if noise.Some? then noise.value[i] else 0.0
  }

  /** Labels without noise are the labels with a zero draw for every row. */
  lemma NoiselessLabels(X: Frame, y: seq<Cell>, table: map<string, int>, moisture: seq<real>, zero: seq<real>)
    requires WellFormed(X) && |y| == |X.rows| && |moisture| == |X.rows|
    requires |zero| == |X.rows| && forall i | 0 <= i < |zero| :: zero[i] == 0.0
    ensures Labelled(X, y, table, moisture, None) <==> Labelled(X, y, table, moisture, Some(zero))
  {
    SameDraws(X, y, table, moisture, None, Some(zero));
    SameDraws(X, y, table, moisture, Some(zero), None);
  }

  /** Labelling depends on the noise only through each row's draw. */
  lemma SameDraws(X: Frame, y: seq<Cell>, table: map<string, int>, moisture: seq<real>, a: Option<seq<real>>, b: Option<seq<real>>)
    requires WellFormed(X) && |y| == |X.rows| && |moisture| == |X.rows|
    requires a.Some? ==> |a.value| == |X.rows|
    requires b.Some? ==> |b.value| == |X.rows|
    requires forall i | 0 <= i < |X.rows| :: DrawAt(a, i) == DrawAt(b, i)
    ensures Labelled(X, y, table, moisture, a) ==> Labelled(X, y, table, moisture, b)
  {
    if Labelled(X, y, table, moisture, a) && |X.rows| > 0 {
      assert DrawAt(a, 0) == DrawAt(b, 0);
      assert Crop in X.names && Moisture in X.names && Base in X.names;
      forall i | 0 <= i < |X.rows|
        ensures Measured(X, i) && Get(X, i, Moisture) == Num(moisture[i])
        ensures Get(X, i, Base) == Num(FormulaBase(table, Get(X, i, Crop), CropTable.DefaultBase) as real)
        ensures y[i] == Num(Target.CalculateWater(
             Get(X, i, Base).value, Get(X, i, Temperature).value, moisture[i],
             Get(X, i, Rainfall).value, Get(X, i, Humidity).value, DrawAt(b, i)) as real)
      {
        assert DrawAt(a, i) == DrawAt(b, i);
      }
    }
  }

  /** A frame with the engineered columns and the targets computed from it. */
  datatype Engineered = Engineered(frame: Frame, targets: seq<int>)

  /**
   * The feature engineering the preparation scripts share: the synthetic
   * moisture column, then `crop_water_base` via `map` + `fillna(4000)`, then
   * `df.apply(calculate_water, axis=1)`. It succeeds exactly when there are
   * rows and every row has its three readings as numbers; the other columns
   * are kept, and each target is the formula over the base and readings its
   * row carries. Over no rows pandas probes `calculate_water` with a row of
   * NaN, whose `int()` raises; it then returns a frame, and assigning that
   * frame to one column raises.
   */
  method Engineer(f: Frame, table: map<string, int>, moisture: seq<real>, noise: Option<seq<real>>)
    returns (r: Result<Engineered, Fault>)
    requires WellFormed(f) && Crop in f.names && |moisture| == |f.rows|
    requires noise.Some? ==> |noise.value| == |f.rows|
    ensures r.Success? <==> |f.rows| > 0 && forall i | 0 <= i < |f.rows| :: Measured(f, i)
    ensures |f.rows| == 0 ==> r == Failure(NoRows)
    ensures r.Failure? ==> r.error.MissingColumn? || r.error.NotNumeric? || r.error.NaNToInt? || r.error == NoRows
    ensures r.Success? ==> var e := r.value.frame;
      && WellFormed(e) && e.names == Added(Added(f.names, Moisture), Base)
      && |e.rows| == |f.rows| && |r.value.targets| == |f.rows|
      && Keeps(f, e)
      && Labelled(e, IntCells(r.value.targets), table, moisture, noise)
  {
    if |f.rows| == 0 {
      return Failure(NoRows);
    }
    var m := WithNumbers(f, Moisture, moisture);
    var b := WithBase(m, table, CropTable.DefaultBase);
    EngineeredColumns(f, table, moisture, m, b);
    var ts := Targets(b, table, noise);
    if ts.Failure? {
      var i :| 0 <= i < |b.rows| && RowWater(b, i, table, NoiseAt(noise, i)) == Failure(ts.error);
      return Failure(ts.error);
    }
    EngineeredTargets(table, moisture, noise, b, ts.value);
    return Success(Engineered(b, ts.value));
  }

  /** A cleaned frame with the two engineered columns added holds all six model inputs. */
  lemma EngineeredHasInputs(f: Frame, e: Frame)
    requires Crop in f.names && forall n | n in Readings :: n in f.names
    requires e.names == Added(Added(f.names, Moisture), Base)
    ensures forall n | n in ModelInputs :: n in e.names
  {
    assert Temperature in Readings && Humidity in Readings && Rainfall in Readings;
  }

  /** What the moisture and base assignments leave in each row. */
  lemma EngineeredColumns(f: Frame, table: map<string, int>, moisture: seq<real>, m: Frame, b: Frame)
    requires WellFormed(f) && Crop in f.names && |moisture| == |f.rows|
    requires WellFormed(m) && |m.rows| == |f.rows| && m.names == Added(f.names, Moisture)
    requires forall i | 0 <= i < |f.rows| :: Get(m, i, Moisture) == Num(moisture[i])
    requires forall i, m' | 0 <= i < |f.rows| && m' in f.names && m' != Moisture :: Get(m, i, m') == Get(f, i, m')
    requires WellFormed(b) && |b.rows| == |m.rows| && b.names == Added(m.names, Base)
    requires forall i | 0 <= i < |m.rows| :: Get(b, i, Base) == Num(FormulaBase(table, Get(m, i, Crop), CropTable.DefaultBase) as real)
    requires forall i, n | 0 <= i < |m.rows| && n in m.names && n != Base :: Get(b, i, n) == Get(m, i, n)
    ensures Keeps(f, b)
    ensures forall i | 0 <= i < |f.rows| ::
      && Get(b, i, Moisture) == Num(moisture[i])
      && Get(b, i, Base) == Num(FormulaBase(table, Get(b, i, Crop), CropTable.DefaultBase) as real)
      && (Computable(b, i) <==> Measured(f, i))
  {
    forall i | 0 <= i < |f.rows|
      ensures Get(b, i, Moisture) == Num(moisture[i])
      ensures Get(b, i, Base) == Num(FormulaBase(table, Get(b, i, Crop), CropTable.DefaultBase) as real)
      ensures Computable(b, i) <==> Measured(f, i)
    {
      assert Get(b, i, Crop) == Get(m, i, Crop) == Get(f, i, Crop);
      if Temperature in f.names { assert Get(b, i, Temperature) == Get(f, i, Temperature); }
      if Rainfall in f.names { assert Get(b, i, Rainfall) == Get(f, i, Rainfall); }
      if Humidity in f.names { assert Get(b, i, Humidity) == Get(f, i, Humidity); }
    }
  }

  /** The targets `Targets` computed over the engineered frame label its rows. */
  lemma EngineeredTargets(table: map<string, int>, moisture: seq<real>, noise: Option<seq<real>>, b: Frame, ws: seq<int>)
    requires WellFormed(b) && |moisture| == |b.rows| && |ws| == |b.rows|
    requires noise.Some? ==> |noise.value| == |b.rows|
    requires forall i | 0 <= i < |b.rows| :: RowWater(b, i, table, NoiseAt(noise, i)) == Success(ws[i])
    requires Crop in b.names && Moisture in b.names && Base in b.names
    requires forall i | 0 <= i < |b.rows| ::
      && Get(b, i, Moisture) == Num(moisture[i])
      && Get(b, i, Base) == Num(FormulaBase(table, Get(b, i, Crop), CropTable.DefaultBase) as real)
    ensures Labelled(b, IntCells(ws), table, moisture, noise)
  {
    forall i | 0 <= i < |b.rows|
      ensures Computable(b, i)
      ensures ws[i] == Target.CalculateWater(
             FormulaBase(table, Get(b, i, Crop), CropTable.DefaultBase) as real, Get(b, i, Temperature).value, moisture[i],
             Get(b, i, Rainfall).value, Get(b, i, Humidity).value, DrawAt(noise, i))
    {
      assert RowWater(b, i, table, NoiseAt(noise, i)).Success?;
    }
    var y := IntCells(ws);
    forall i | 0 <= i < |b.rows|
      ensures Measured(b, i)
      ensures y[i] == Num(Target.CalculateWater(
           Get(b, i, Base).value, Get(b, i, Temperature).value, moisture[i],
           Get(b, i, Rainfall).value, Get(b, i, Humidity).value, DrawAt(noise, i)) as real)
    {
      assert Computable(b, i);
      assert Get(b, i, Base).value == FormulaBase(table, Get(b, i, Crop), CropTable.DefaultBase) as real;
    }
  }

  // ---------------------------------------------------------------------------
  // From the cleaned frame to the model inputs, row by row

  /** A column after `pd.to_numeric(..., errors='coerce')`. */
  function CoercedColumn(f: Frame, n: string): (c: seq<Cell>)
    requires WellFormed(f) && n in f.names
    ensures |c| == |f.rows| && forall i | 0 <= i < |f.rows| :: c[i] == ToNumeric(Get(f, i, n))
  {
    seq(|f.rows|, i requires 0 <= i < |f.rows| => ToNumeric(Get(f, i, n)))
  }

  /**
   * Row by row, `X` carries the cleaned crop of `R`'s row and each coerced
   * reading of that row, or the mean of its coerced column in its place.
   */
  predicate CleanedInputs(R: Frame, X: Frame, clean: string -> string, cols: seq<string>)
    requires WellFormed(R) && WellFormed(X) && |X.rows| == |R.rows|
  {
    && Crop in R.names && Crop in X.names
    && (forall n | n in cols :: n in R.names && n in X.names)
    && (forall i | 0 <= i < |X.rows| :: Get(X, i, Crop) == CleanCell(Get(R, i, Crop), clean))
    && (forall i, n | 0 <= i < |X.rows| && n in cols ::
          Get(X, i, n) == Impute(ToNumeric(Get(R, i, n)), ColumnMean(CoercedColumn(R, n))))
  }

  /**
   * After `fillna(df.mean(numeric_only=True))` on the standardised frame `s`:
   * the crop column, of `object` dtype after `.str`, is the cleaned crop, and
   * each coerced column holds its number or the mean of the coerced column.
   */
  lemma Imputed(R: Frame, s: Frame, filled: Frame, clean: string -> string, cols: seq<string>)
    requires WellFormed(R) && WellFormed(s) && s.names == R.names && |s.rows| == |R.rows|
    requires Crop in R.names && Crop !in cols && forall n | n in cols :: n in R.names
    requires forall i, n | 0 <= i < |R.rows| && n in R.names ::
      Get(s, i, n) == if n == Crop then CleanCell(Get(R, i, n), clean)
                      else if n in cols then ToNumeric(Get(R, i, n))
                      else Get(R, i, n)
    requires filled == FillNaMeans(s, [Crop])
    ensures CleanedInputs(R, filled, clean, cols)
  {
    forall n | n in cols
      ensures Column(s, n) == CoercedColumn(R, n)
    {
      assert n != Crop;
    }
  }

  /** `X` holds, row by row, the six model inputs of `e`, in their fixed order. */
  predicate Inputs(e: Frame, X: Frame)
    requires WellFormed(e) && WellFormed(X) && |X.rows| == |e.rows|
  {
    && X.names == ModelInputs
    && (forall n | n in ModelInputs :: n in e.names)
    && forall i, n | 0 <= i < |e.rows| && n in ModelInputs && n in e.names :: Get(X, i, n) == Get(e, i, n)
  }

  /** Adding the engineered columns keeps the cleaned crop and readings. */
  lemma KeptInputs(R: Frame, filled: Frame, e: Frame, clean: string -> string, cols: seq<string>)
    requires WellFormed(R) && WellFormed(filled) && WellFormed(e)
    requires |filled.rows| == |R.rows| && |e.rows| == |R.rows|
    requires forall n | n in cols :: n != Moisture && n != Base
    requires CleanedInputs(R, filled, clean, cols) && Keeps(filled, e)
    ensures CleanedInputs(R, e, clean, cols)
  {
    forall i | 0 <= i < |e.rows|
      ensures Get(e, i, Crop) == CleanCell(Get(R, i, Crop), clean)
    {
      assert Get(e, i, Crop) == Get(filled, i, Crop);
    }
    forall i, n | 0 <= i < |e.rows| && n in cols
      ensures Get(e, i, n) == Impute(ToNumeric(Get(R, i, n)), ColumnMean(CoercedColumn(R, n)))
    {
      assert Get(e, i, n) == Get(filled, i, n);
    }
  }

  /** The inputs taken from a frame keep its cleaned crop and readings. */
  lemma ComposeInputs(R: Frame, e: Frame, X: Frame, clean: string -> string, cols: seq<string>)
    requires WellFormed(R) && WellFormed(e) && WellFormed(X)
    requires |e.rows| == |R.rows| && |X.rows| == |R.rows|
    requires forall n | n in cols :: n in ModelInputs
    requires CleanedInputs(R, e, clean, cols) && Inputs(e, X)
    ensures CleanedInputs(R, X, clean, cols)
  {
    forall i | 0 <= i < |X.rows|
      ensures Get(X, i, Crop) == CleanCell(Get(R, i, Crop), clean)
    {
      assert Get(X, i, Crop) == Get(e, i, Crop);
    }
    forall i, n | 0 <= i < |X.rows| && n in cols
      ensures Get(X, i, n) == Impute(ToNumeric(Get(R, i, n)), ColumnMean(CoercedColumn(R, n)))
    {
      assert Get(X, i, n) == Get(e, i, n);
    }
  }

  /** The inputs taken from a labelled frame are labelled the same way. */
  lemma ComposeTargets(e: Frame, X: Frame, y: seq<Cell>, table: map<string, int>,
                       moisture: seq<real>, noise: Option<seq<real>>)
    requires WellFormed(e) && WellFormed(X) && |X.rows| == |e.rows|
    requires |moisture| == |e.rows| && |y| == |e.rows|
    requires noise.Some? ==> |noise.value| == |e.rows|
    requires Labelled(e, y, table, moisture, noise) && Inputs(e, X)
    ensures Labelled(X, y, table, moisture, noise)
  {
    forall i | 0 <= i < |X.rows|
      ensures Measured(X, i)
    {
      assert Get(X, i, Temperature) == Get(e, i, Temperature);
      assert Get(X, i, Humidity) == Get(e, i, Humidity);
      assert Get(X, i, Rainfall) == Get(e, i, Rainfall);
      assert Get(X, i, Crop) == Get(e, i, Crop);
      assert Get(X, i, Moisture) == Get(e, i, Moisture);
      assert Get(X, i, Base) == Get(e, i, Base);
    }
  }

  /** No model input is named twice, so a frame can be selected by them. */
  lemma InputsDistinct()
    ensures Distinct(ModelInputs)
  {
    assert Crop[5] != Base[5];
  }

  /**
   * `df[target] = targets` then `X = df[columns]`, `y = df[target]`: the
   * feature frame keeps each row's values of the six inputs.
   */
  method Features(e: Frame, ws: seq<int>, target: string, columns: seq<string>) returns (X: Frame, y: seq<Cell>)
    requires WellFormed(e) && |ws| == |e.rows|
    requires columns == ModelInputs && target !in columns
    requires forall n | n in columns :: n in e.names
    ensures WellFormed(X) && |X.rows| == |e.rows| && Inputs(e, X)
    ensures y == IntCells(ws)
  {
    var t := Assign(e, target, IntCells(ws));
    InputsDistinct();
    X := Select(t, columns).value;
    y := Column(t, target);
  }

  /**
   * The cleanup of the imputing scripts: `Standardise`, then
   * `df.fillna(df.mean(numeric_only=True))`. The crop column ends up cleaned;
   * every coerced column holds its number or the mean of its coerced values.
   */
  method CleanAndImpute(R: Frame, clean: string -> string, cols: seq<string>) returns (r: Result<Frame, Fault>)
    requires WellFormed(R) && Crop !in cols
    ensures r.Success? <==>
      && Crop in R.names && (|R.rows| == 0 || HasText(Column(R, Crop)))
      && forall n | n in cols :: n in R.names
    ensures r.Failure? ==> r.error.MissingColumn? || r.error == NoStrings(Crop)
    ensures r.Success? ==> WellFormed(r.value) && r.value.names == R.names && |r.value.rows| == |R.rows|
    ensures r.Success? ==> CleanedInputs(R, r.value, clean, cols)
  {
    var standard := Standardise(R, clean, cols);
    if standard.Failure? {
      return Failure(standard.error);
    }
    var filled := FillNaMeans(standard.value, [Crop]);
    Imputed(R, standard.value, filled, clean, cols);
    return Success(filled);
  }

  /**
   * Each column in `cols` exists and has a row whose value is a number, so
   * the column has a mean and the imputation leaves no NaN in it.
   */
  predicate Imputable(R: Frame, cols: seq<string>)
    requires WellFormed(R)
  {
    forall n | n in cols :: n in R.names && exists i | 0 <= i < |R.rows| :: Get(R, i, n).Num?
  }

  /**
   * After the imputation, every row has its three readings as numbers exactly
   * when each reading has a number somewhere in its column.
   */
  lemma ImputedMeasured(R: Frame, X: Frame, clean: string -> string)
    requires WellFormed(R) && WellFormed(X) && |X.rows| == |R.rows|
    requires CleanedInputs(R, X, clean, Readings) && |R.rows| > 0
    ensures (forall i | 0 <= i < |X.rows| :: Measured(X, i)) <==> Imputable(R, Readings)
  {
    if Imputable(R, Readings) {
      forall i, n | 0 <= i < |X.rows| && n in Readings
        ensures Get(X, i, n).Num?
      {
        MeanExists(R, n);
      }
      assert Temperature in Readings && Humidity in Readings && Rainfall in Readings;
    } else {
      var n :| n in Readings && !(n in R.names && exists i | 0 <= i < |R.rows| :: Get(R, i, n).Num?);
      MeanExists(R, n);
      assert Get(X, 0, n) == Impute(ToNumeric(Get(R, 0, n)), None);
      assert !Measured(X, 0);
    }
  }

  /** A coerced column has a mean exactly when one of its values is a number. */
  lemma MeanExists(R: Frame, n: string)
    requires WellFormed(R) && n in R.names
    ensures ColumnMean(CoercedColumn(R, n)).Some? <==> exists i | 0 <= i < |R.rows| :: Get(R, i, n).Num?
  {
    var c := CoercedColumn(R, n);
    NumCountPositive(c);
    assert forall i | 0 <= i < |c| :: c[i].Num? <==> Get(R, i, n).Num?;
  }

  /**
   * The cleanup and feature engineering of the scripts that keep every row:
   * `CleanAndImpute` over the three readings, then `Engineer`. It succeeds
   * exactly when the crop column holds a name and each reading has a row
   * that parses; a frame without rows fails in `apply`. On success the frame
   * holds the six model inputs, the cleaned crop and readings of each row of
   * `R`, and the labels of its rows.
   */
  method CleanAndEngineer(R: Frame, clean: string -> string, table: map<string, int>, moisture: seq<real>,
                          noise: Option<seq<real>>) returns (out: Result<Engineered, Fault>)
    requires WellFormed(R) && |moisture| == |R.rows| && (noise.Some? ==> |noise.value| == |R.rows|)
    ensures out.Success? <==> Crop in R.names && HasText(Column(R, Crop)) && Imputable(R, Readings)
    ensures Crop in R.names && |R.rows| == 0 && (forall n | n in Readings :: n in R.names) ==> out == Failure(NoRows)
    ensures out.Success? ==> var e := out.value.frame;
      && WellFormed(e) && |e.rows| == |R.rows| && |out.value.targets| == |R.rows|
      && (forall n | n in ModelInputs :: n in e.names)
      && CleanedInputs(R, e, clean, Readings)
      && Labelled(e, IntCells(out.value.targets), table, moisture, noise)
  {
    var cleaned := CleanAndImpute(R, clean, Readings);
    if cleaned.Failure? {
      return Failure(cleaned.error);
    }
    var filled := cleaned.value;
    if |R.rows| > 0 {
      ImputedMeasured(R, filled, clean);
    }
    out := Engineer(filled, table, moisture, noise);
    if out.Success? {
      KeptInputs(R, filled, out.value.frame, clean, Readings);
      EngineeredHasInputs(filled, out.value.frame);
    }
  }

  /**
   * From a renamed frame to the model inputs and their labels, as the
   * checking script does it: `CleanAndEngineer`, then `X = df[inputs]` and
   * `y = df[target]`. It fails exactly when `CleanAndEngineer` does.
   */
  method Derive(R: Frame, clean: string -> string, table: map<string, int>, moisture: seq<real>,
                noise: Option<seq<real>>, target: string) returns (out: Result<Training, Fault>)
    requires WellFormed(R) && |moisture| == |R.rows| && (noise.Some? ==> |noise.value| == |R.rows|)
    requires target !in ModelInputs
    ensures out.Success? <==> Crop in R.names && HasText(Column(R, Crop)) && Imputable(R, Readings)
    ensures Crop in R.names && |R.rows| == 0 && (forall n | n in Readings :: n in R.names) ==> out == Failure(NoRows)
    ensures out.Success? ==>
      && out.value.features.names == ModelInputs && WellFormed(out.value.features)
      && |out.value.features.rows| == |R.rows| && |out.value.target| == |R.rows|
    ensures out.Success? ==> CleanedInputs(R, out.value.features, clean, Readings)
    ensures out.Success? ==> Labelled(out.value.features, out.value.target, table, moisture, noise)
  {
    var engineered := CleanAndEngineer(R, clean, table, moisture, noise);
    if engineered.Failure? {
      return Failure(engineered.error);
    }
    var e := engineered.value.frame;
    var ws := engineered.value.targets;
    var X, y := Features(e, ws, target, ModelInputs);
    ComposeInputs(R, e, X, clean, Readings);
    ComposeTargets(e, X, y, table, moisture, noise);
    return Success(Training(X, y));
  }
}
