/**
 * The data preparation of `retrain_model.py`, which retrains the served
 * pipeline on the raw dataset. Unlike the other preparations it removes a
 * duplicated header row, scales the recorded target instead of synthesising
 * one, only strips the crop name, and drops the rows whose crop the table
 * does not list instead of giving them a default base. Fitting, scoring and
 * saving are outside this model.
 */
module RetrainModel {
  import opened Wrappers
  import opened Frames
  import Text
  import opened Cleaning
  import AdaptData

  /** `CROP_BASE_WATER`, the table the script copies from the server. */
  const CropBaseWater: map<string, int> := map[
    "rice" := 6500, "maize" := 5000, "pomegranate" := 4400, "banana" := 5100,
    "mango" := 4600, "watermelon" := 4700, "papaya" := 4850]

  /** `cols`: the columns parsed again after a duplicated header is removed. */
  const HeaderCols: seq<string> := [
    "soil_moisture_percent", "temperature_celsius", "humidity_percent", "rainfall_mm",
    "water_requirement_liters_per_hectare"]

  /** `feature_cols`: the six model inputs, in the server's order. */
  const FeatureCols: seq<string> := [
    "crop_type", "soil_moisture_percent", "temperature_celsius", "humidity_percent",
    "rainfall_mm", "crop_water_base"]

  /** The factor that brings the recorded target to the rule-based magnitude. */
  const Scale: real := 5.5

  lemma Layout()
    ensures FeatureCols == ModelInputs && Water !in FeatureCols
    ensures HeaderCols == [Moisture] + Readings + [Water]
  {
  }

  /** The feature columns are the ones every other preparation hands to the model. */
  lemma SameInputsAsTraining()
    ensures FeatureCols == AdaptData.FeatureColumns
  {
  }

  /** The retraining table lists the same seven crops and values as the training table. */
  lemma SameTableAsTraining()
    ensures CropBaseWater == AdaptData.CropRulesFull
  {
  }

  /**
   * Stripping does not fold case: a capitalised crop finds no value here and
   * its row is dropped, where the training preparation gives it the table's
   * value after lowercasing.
   */
  lemma CapitalisedCropUnmapped()
    ensures !Mapped(CropBaseWater, CleanCell(Text("Rice"), Text.Strip))
    ensures Mapped(AdaptData.CropRulesFull, CleanCell(Text(" Rice "), Text.Normalise))
  {
    StrippedRiceUnmapped();
    NormalisedRiceMapped();
  }

  lemma StrippedRiceUnmapped()
    ensures !Mapped(CropBaseWater, CleanCell(Text("Rice"), Text.Strip))
  {
    StripRiceKeepsCapital();
    RiceUnlisted();
  }

  lemma NormalisedRiceMapped()
    ensures Mapped(AdaptData.CropRulesFull, CleanCell(Text(" Rice "), Text.Normalise))
  {
    AdaptData.NormaliseRice();
    assert CleanCell(Text(" Rice "), Text.Normalise) == Text("rice");
    assert "rice" in AdaptData.CropRulesFull;
  }

  lemma StripRiceKeepsCapital()
    ensures CleanCell(Text("Rice"), Text.Strip) == Text("Rice")
  {
    var word := "Rice";
    assert word[0] == 'R' && !Text.IsSpace('R');
    assert word[3] == 'e' && !Text.IsSpace('e');
    Text.StripOfTrimmed(word);
  }

  lemma RiceUnlisted()
    ensures !Mapped(CropBaseWater, Text("Rice"))
  {
    var word := "Rice";
    assert word[0] == 'R';
    assert forall k | k in CropBaseWater.Keys :: |k| > 0 && k[0] != 'R';
  }

  /**
   * What the `try` block needs: a first row (`iloc[0]`), the crop column, a
   * header row followed only by numbers in `cols`, and a target column
   * without text to multiply.
   */
  predicate Loadable(f: Frame)
    requires WellFormed(f)
  {
    && |f.rows| > 0 && Crop in f.names
    && (DuplicateHeader(f) ==> forall n | n in HeaderCols :: n in f.names && !HasText(Column(Deduplicated(f), n)))
    && Water in f.names && !HasText(Column(Deduplicated(f), Water))
  }

  /** `l` is `d` with the target multiplied by 5.5 and nothing else changed. */
  predicate Scaled(d: Frame, l: Frame)
    requires WellFormed(d) && WellFormed(l)
  {
    && l.names == d.names && |l.rows| == |d.rows|
    && forall i, n | 0 <= i < |d.rows| && n in d.names ::
         Get(l, i, n) == if n == Water then ScaleCell(Get(d, i, n), Scale) else Get(d, i, n)
  }

  /**
   * The `try` block: the duplicated-header cleanup with its strict parse of
   * `cols`, then the target scaled by 5.5. It fails exactly when the frame is
   * not loadable; otherwise the frame is the deduplicated one with only the
   * target multiplied.
   */
  method Load(f: Frame) returns (r: Result<Frame, Fault>)
    requires WellFormed(f)
    ensures r.Success? <==> Loadable(f)
    ensures r.Failure? && |f.rows| == 0 ==> r.error == EmptyFrame
    ensures r.Failure? && |f.rows| > 0 && Crop !in f.names ==> r.error == MissingColumn(Crop)
    ensures r.Success? ==> WellFormed(r.value) && Scaled(Deduplicated(f), r.value)
  {
    if |f.rows| == 0 {
      return Failure(EmptyFrame);
    }
    if Crop !in f.names {
      return Failure(MissingColumn(Crop));
    }
    var df := f;
    if Get(df, 0, Crop) == Text("crop_type") {
      df := DropFirstRow(df);
      var parsed := ParseColumns(df, HeaderCols);
      if parsed.Failure? {
        return Failure(parsed.error);
      }
      df := parsed.value;
    }
    assert df == Deduplicated(f);
    r := ScaleColumn(df, Water, Scale);
  }

  /** Scaling the target leaves the crop column as it was. */
  lemma ScaledKeepsCrop(d: Frame, l: Frame)
    requires WellFormed(d) && WellFormed(l) && Scaled(d, l) && Crop in d.names
    ensures Column(l, Crop) == Column(d, Crop)
  {
    forall i | 0 <= i < |d.rows|
      ensures Column(l, Crop)[i] == Column(d, Crop)[i]
    {
    }
  }

  /** The stripped crop of a row is one the table lists. */
  predicate Mapped(table: map<string, int>, c: Cell) {
    c.Text? && c.text in table
  }

  /** `ks` lists, in increasing order, exactly the rows of `f` whose crop the table lists. */
  predicate Picks(f: Frame, table: map<string, int>, ks: seq<nat>)
    requires WellFormed(f) && Crop in f.names
  {
    && (forall a, b | 0 <= a < b < |ks| :: ks[a] < ks[b])
    && (forall j | 0 <= j < |ks| :: ks[j] < |f.rows| && Mapped(table, Get(f, ks[j], Crop)))
    && (forall i | 0 <= i < |f.rows| && Mapped(table, Get(f, i, Crop)) :: i in ks)
  }

  /** Row `j` of `r` is row `ks[j]` of `f` with the table's base added. */
  predicate MappedRows(f: Frame, table: map<string, int>, ks: seq<nat>, r: Frame)
    requires WellFormed(f) && Crop in f.names && WellFormed(r) && |r.rows| == |ks|
    requires Picks(f, table, ks)
  {
    && Base in r.names
    && (forall n | n in f.names :: n in r.names)
    && (forall j | 0 <= j < |ks| :: Get(r, j, Base) == Num(table[Get(f, ks[j], Crop).text] as real))
    && (forall j, n | 0 <= j < |ks| && n in f.names && n != Base :: Get(r, j, n) == Get(f, ks[j], n))
  }

  /**
   * `df['crop_water_base'] = df['crop_type'].map(table)`, then, when a crop
   * found no value, `dropna(subset=['crop_water_base'])`: exactly the rows
   * with a listed crop stay, in their order, each with its table value.
   */
  method DropUnmapped(f: Frame, table: map<string, int>) returns (r: Frame)
    requires WellFormed(f) && Crop in f.names
    ensures WellFormed(r) && r.names == Added(f.names, Base) && |r.rows| <= |f.rows|
    ensures exists ks :: |ks| == |r.rows| && Picks(f, table, ks) && MappedRows(f, table, ks, r)
  {
    var m := WithMappedBase(f, table);
    if exists i | 0 <= i < |m.rows| :: Get(m, i, Base).NaN? {
      r := DropNa(m, [Base]).value;
      UnmappedDropped(f, table, m, r);
    } else {
      r := m;
      NoneUnmapped(f, table, m);
    }
  }

  /** `dropna` on the base keeps exactly the rows whose crop found a value. */
  lemma UnmappedDropped(f: Frame, table: map<string, int>, m: Frame, r: Frame)
    requires WellFormed(f) && Crop in f.names
    requires m == WithMappedBase(f, table) && DropNa(m, [Base]) == Success(r)
    ensures |r.rows| <= |f.rows|
    ensures exists ks :: |ks| == |r.rows| && Picks(f, table, ks) && MappedRows(f, table, ks, r)
  {
    var ks := Kept(m.rows, row => Complete(row, Positions(m.names, [Base])));
    forall i | 0 <= i < |f.rows|
      ensures HasValues(m, i, [Base]) <==> Mapped(table, Get(f, i, Crop))
    {
    }
    assert Picks(f, table, ks);
    forall j | 0 <= j < |ks|
      ensures Get(r, j, Base) == Num(table[Get(f, ks[j], Crop).text] as real)
      ensures forall n | n in f.names && n != Base :: Get(r, j, n) == Get(f, ks[j], n)
    {
      assert r.rows[j] == m.rows[ks[j]];
      assert HasValues(m, ks[j], [Base]);
    }
    assert MappedRows(f, table, ks, r);
  }

  /** Without an unmapped crop every row stays, in its place. */
  lemma NoneUnmapped(f: Frame, table: map<string, int>, m: Frame)
    requires WellFormed(f) && Crop in f.names && m == WithMappedBase(f, table)
    requires forall i | 0 <= i < |m.rows| :: !Get(m, i, Base).NaN?
    ensures exists ks :: |ks| == |m.rows| && Picks(f, table, ks) && MappedRows(f, table, ks, m)
  {
    var ks := seq(|m.rows|, i requires 0 <= i < |m.rows| => i);
    forall i | 0 <= i < |f.rows|
      ensures Mapped(table, Get(f, i, Crop)) && i in ks
    {
      assert !Get(m, i, Base).NaN?;
      assert ks[i] == i;
    }
    assert Picks(f, table, ks);
    assert MappedRows(f, table, ks, m);
  }

  /** `ks` lists, in increasing order, exactly the rows of `l` whose stripped crop the table lists. */
  predicate Chosen(l: Frame, table: map<string, int>, ks: seq<nat>)
    requires WellFormed(l) && Crop in l.names
  {
    && (forall a, b | 0 <= a < b < |ks| :: ks[a] < ks[b])
    && (forall j | 0 <= j < |ks| :: ks[j] < |l.rows| && Mapped(table, CleanCell(Get(l, ks[j], Crop), Text.Strip)))
    && (forall i | 0 <= i < |l.rows| && Mapped(table, CleanCell(Get(l, i, Crop), Text.Strip)) :: i in ks)
  }

  /**
   * Row `j` of `X` and `y` comes from row `ks[j]` of the loaded frame `l`:
   * `X` carries the stripped crop, the moisture and readings as read and the
   * table's base, and `y` the target.
   */
  predicate Retrained(l: Frame, table: map<string, int>, ks: seq<nat>, X: Frame, y: seq<Cell>)
    requires WellFormed(l) && WellFormed(X) && |X.rows| == |ks| && |y| == |ks|
    requires forall j | 0 <= j < |ks| :: ks[j] < |l.rows|
  {
    && Crop in l.names && Water in l.names && X.names == ModelInputs
    && (forall n | n in [Moisture] + Readings :: n in l.names)
    && (forall j | 0 <= j < |ks| :: Get(X, j, Crop) == CleanCell(Get(l, ks[j], Crop), Text.Strip))
    && (forall j, n | 0 <= j < |ks| && n in [Moisture] + Readings :: Get(X, j, n) == Get(l, ks[j], n))
    && (forall j | 0 <= j < |ks| :: Get(X, j, Base).Num? && Get(X, j, Crop).Text?
          && Get(X, j, Crop).text in table && Get(X, j, Base).value == table[Get(X, j, Crop).text] as real)
    && (forall j | 0 <= j < |ks| :: y[j] == Get(l, ks[j], Water))
  }

  /**
   * The steps after the `try` block: strip, map, drop the unmapped rows and
   * select. `.str` needs a crop name among the rows and the selection needs
   * every input column; a KeyError or AttributeError here is uncaught.
   */
  method Prepare(l: Frame, table: map<string, int>) returns (out: Result<Training, Fault>)
    requires WellFormed(l) && Crop in l.names && Water in l.names
    ensures out.Success? <==>
      && (|l.rows| == 0 || HasText(Column(l, Crop)))
      && forall n | n in [Moisture] + Readings :: n in l.names
    ensures out.Success? ==> var X := out.value.features;
      && WellFormed(X) && |X.rows| <= |l.rows| && |out.value.target| == |X.rows|
      && exists ks :: |ks| == |X.rows| && Chosen(l, table, ks) && Retrained(l, table, ks, X, out.value.target)
  {
    var stripped := CleanCrops(l, Text.Strip);
    if stripped.Failure? {
      return Failure(stripped.error);
    }
    var s := stripped.value;
    var m := DropUnmapped(s, table);
    Selectable(l.names);
    InputsDistinct();
    var selected := Select(m, ModelInputs);
    if selected.Failure? {
      return Failure(selected.error);
    }
    var X := selected.value;
    var y := Column(m, Water);
    Prepared(l, s, m, table, X, y);
    return Success(Training(X, y));
  }

  /** What stripping, mapping and selecting leave, traced back to the loaded frame. */
  lemma Prepared(l: Frame, s: Frame, m: Frame, table: map<string, int>, X: Frame, y: seq<Cell>)
    requires WellFormed(l) && Crop in l.names && Water in l.names
    requires WellFormed(s) && s.names == l.names && |s.rows| == |l.rows|
    requires forall i, n | 0 <= i < |l.rows| && n in l.names ::
      Get(s, i, n) == if n == Crop then CleanCell(Get(l, i, n), Text.Strip) else Get(l, i, n)
    requires WellFormed(m) && m.names == Added(s.names, Base) && |m.rows| <= |s.rows|
    requires exists ks :: |ks| == |m.rows| && Picks(s, table, ks) && MappedRows(s, table, ks, m)
    requires Distinct(ModelInputs) && Select(m, ModelInputs) == Success(X) && Water in m.names && y == Column(m, Water)
    ensures WellFormed(X) && |X.rows| <= |l.rows| && |y| == |X.rows|
    ensures exists ks :: |ks| == |X.rows| && Chosen(l, table, ks) && Retrained(l, table, ks, X, y)
  {
    var ks :| |ks| == |m.rows| && Picks(s, table, ks) && MappedRows(s, table, ks, m);
    StrippedPicks(l, s, table, ks);
    Traced(l, s, m, table, ks, X, y);
  }

  /** With the crop present, the selection finds its columns exactly when the moisture and readings are there. */
  lemma Selectable(names: seq<string>)
    requires Crop in names
    ensures (forall n | n in ModelInputs :: n in Added(names, Base)) <==> forall n | n in [Moisture] + Readings :: n in names
  {
    assert Moisture[0] != Base[0] && Temperature[0] != Base[0] && Humidity[0] != Base[0] && Rainfall[0] != Base[0];
    assert forall n | n in [Moisture] + Readings :: n in ModelInputs && n != Base;
  }

  /** The moisture and readings are model inputs other than the crop and the base. */
  lemma ReadingNames()
    ensures forall n | n in [Moisture] + Readings :: n in ModelInputs && n != Base && n != Crop
  {
    assert Moisture[0] != Base[0] && Temperature[0] != Base[0] && Humidity[0] != Base[0] && Rainfall[0] != Base[0];
    assert Moisture[0] != Crop[0] && Temperature[0] != Crop[0] && Humidity[0] != Crop[0] && Rainfall[0] != Crop[0];
  }

  /** The rows picked by their stripped crop are the rows of the loaded frame whose crop strips to a listed name. */
  lemma StrippedPicks(l: Frame, s: Frame, table: map<string, int>, ks: seq<nat>)
    requires WellFormed(l) && Crop in l.names
    requires WellFormed(s) && s.names == l.names && |s.rows| == |l.rows|
    requires forall i | 0 <= i < |l.rows| :: Get(s, i, Crop) == CleanCell(Get(l, i, Crop), Text.Strip)
    requires Picks(s, table, ks)
    ensures Chosen(l, table, ks)
  {
  }

  /** The stripped, mapped and selected rows trace back to the loaded frame. */
  lemma Traced(l: Frame, s: Frame, m: Frame, table: map<string, int>, ks: seq<nat>, X: Frame, y: seq<Cell>)
    requires WellFormed(l) && Crop in l.names && Water in l.names
    requires WellFormed(s) && s.names == l.names && |s.rows| == |l.rows|
    requires forall i, n | 0 <= i < |l.rows| && n in l.names ::
      Get(s, i, n) == if n == Crop then CleanCell(Get(l, i, n), Text.Strip) else Get(l, i, n)
    requires WellFormed(m) && m.names == Added(s.names, Base) && |m.rows| == |ks|
    requires Picks(s, table, ks) && MappedRows(s, table, ks, m)
    requires Select(m, ModelInputs) == Success(X)
    requires y == Column(m, Water)
    ensures |X.rows| == |ks| && |y| == |ks| && Retrained(l, table, ks, X, y)
  {
    Selectable(l.names);
    assert Crop != Base && Water != Base by {
      assert Crop[5] != Base[5] && Water[0] != Base[0];
    }
    TracedCrops(l, s, m, table, ks, X, y);
    TracedReadings(l, s, m, table, ks, X);
  }

  /** The crop, base and target of each selected row come from the row it was picked from. */
  lemma TracedCrops(l: Frame, s: Frame, m: Frame, table: map<string, int>, ks: seq<nat>, X: Frame, y: seq<Cell>)
    requires WellFormed(l) && Crop in l.names && Water in l.names && Crop != Base && Water != Base
    requires WellFormed(s) && s.names == l.names && |s.rows| == |l.rows|
    requires forall i, n | 0 <= i < |l.rows| && n in l.names ::
      Get(s, i, n) == if n == Crop then CleanCell(Get(l, i, n), Text.Strip) else Get(l, i, n)
    requires WellFormed(m) && m.names == Added(s.names, Base) && |m.rows| == |ks|
    requires Picks(s, table, ks) && MappedRows(s, table, ks, m)
    requires Select(m, ModelInputs) == Success(X)
    requires y == Column(m, Water)
    ensures forall j | 0 <= j < |ks| ::
      && Get(X, j, Crop) == CleanCell(Get(l, ks[j], Crop), Text.Strip)
      && Get(X, j, Base) == Num(table[Get(s, ks[j], Crop).text] as real)
      && y[j] == Get(l, ks[j], Water)
  {
    forall j | 0 <= j < |ks|
      ensures Get(X, j, Crop) == CleanCell(Get(l, ks[j], Crop), Text.Strip)
      ensures Get(X, j, Base) == Num(table[Get(s, ks[j], Crop).text] as real)
      ensures y[j] == Get(l, ks[j], Water)
    {
      assert Get(X, j, Crop) == Get(m, j, Crop) == Get(s, ks[j], Crop);
      assert y[j] == Get(m, j, Water) == Get(s, ks[j], Water);
    }
  }

  /** The moisture and readings of each selected row are those of the row it was picked from. */
  lemma TracedReadings(l: Frame, s: Frame, m: Frame, table: map<string, int>, ks: seq<nat>, X: Frame)
    requires WellFormed(l) && Crop in l.names
    requires forall n | n in [Moisture] + Readings :: n in l.names
    requires WellFormed(s) && s.names == l.names && |s.rows| == |l.rows|
    requires forall i, n | 0 <= i < |l.rows| && n in l.names ::
      Get(s, i, n) == if n == Crop then CleanCell(Get(l, i, n), Text.Strip) else Get(l, i, n)
    requires WellFormed(m) && m.names == Added(s.names, Base) && |m.rows| == |ks|
    requires Picks(s, table, ks) && MappedRows(s, table, ks, m)
    requires Select(m, ModelInputs) == Success(X)
    ensures forall j, n | 0 <= j < |ks| && n in [Moisture] + Readings :: Get(X, j, n) == Get(l, ks[j], n)
  {
    ReadingNames();
    forall j, n | 0 <= j < |ks| && n in [Moisture] + Readings
      ensures Get(X, j, n) == Get(l, ks[j], n)
    {
      assert Get(X, j, n) == Get(m, j, n);
      assert Get(m, j, n) == Get(s, ks[j], n);
    }
  }

  /**
   * `train()` up to the frames handed to `train_test_split`. An error in the
   * `try` block is printed and `train` returns (status 0); the later steps are
   * outside it, so their errors end the script (status 1).
   *
   * On success, with `D` the deduplicated input and `L` it with the target
   * scaled: the rows of `X` are the rows of `L` whose stripped crop the table
   * lists, in their order, with the stripped crop, the readings as read and
   * the table's base, and `y` holds their scaled targets.
   */
  method Train(input: Option<Frame>) returns (out: Result<Training, Stop>)
    requires input.Some? ==> WellFormed(input.value)
    ensures input.None? ==> out == Failure(Stop(0, FileNotFound))
    ensures out.Failure? ==> (out.error.status == 0 <==> input.None? || !Loadable(input.value))
    ensures out.Failure? ==> out.error.status == 0 || out.error.status == 1
    ensures out.Success? <==>
      && input.Some? && Loadable(input.value)
      && var D := Deduplicated(input.value);
         && (|D.rows| == 0 || HasText(Column(D, Crop)))
         && forall n | n in [Moisture] + Readings :: n in D.names
    ensures out.Success? ==> var D := Deduplicated(input.value); var X := out.value.features;
      && X.names == FeatureCols && WellFormed(X) && |X.rows| <= |D.rows| && |out.value.target| == |X.rows|
      && exists L, ks ::
           && WellFormed(L) && |ks| == |X.rows| && Scaled(D, L)
           && Chosen(L, CropBaseWater, ks) && Retrained(L, CropBaseWater, ks, X, out.value.target)
  {
    if input.None? {
      return Failure(Stop(0, FileNotFound));
    }
    var loaded := Load(input.value);
    if loaded.Failure? {
      return Failure(Stop(0, loaded.error));
    }
    Layout();
    ScaledKeepsCrop(Deduplicated(input.value), loaded.value);
    var prepared := Prepare(loaded.value, CropBaseWater);
    if prepared.Failure? {
      return Failure(Stop(1, prepared.error));
    }
    return Success(prepared.value);
  }
}
