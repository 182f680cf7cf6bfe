/**
 * The synthetic training data of `fix_model.py`, which trains a bare random
 * forest on six numeric columns: an integer crop code instead of the crop
 * name, four uniform readings, a base drawn from the table's values and the
 * default, and the clipped target. The random draws are parameters: each
 * sample carries the raw draw the generator would turn into a value.
 */
module FixModel {
  import CropTable
  import Target
  import AdaptData

  /** The values `np.random.choice` draws `crop_water_base` from. */
  const BaseChoices: seq<int> := [4000, 4400, 4600, 4700, 4850, 5000, 5100, 6500]

  /** The number of crop codes `np.random.randint(0, 7)` draws from. */
  const CropCodes: nat := 7

  /**
   * The raw draws of one sample: an index for `randint` and `choice`, a
   * fraction in [0, 1) for each `uniform`, and the normal noise.
   */
  datatype Draw = Draw(code: nat, moisture: real, temperature: real, humidity: real, rainfall: real,
                       base: nat, noise: real)

  predicate ValidDraw(d: Draw) {
    && 0.0 <= d.moisture < 1.0 && 0.0 <= d.temperature < 1.0
    && 0.0 <= d.humidity < 1.0 && 0.0 <= d.rainfall < 1.0
  }

  /** `np.random.uniform(lo, hi)` for the fraction `u` of the way from `lo` to `hi`. */
  function Uniform(lo: real, hi: real, u: real): (x: real)
    requires lo < hi && 0.0 <= u < 1.0
    ensures lo <= x < hi
  {
    lo + Portion(hi - lo, u)
  }

  /** The fraction `u` of a positive width: never negative, always below the width. */
  function Portion(w: real, u: real): (p: real)
    requires w > 0.0 && 0.0 <= u < 1.0
    ensures 0.0 <= p < w
  {
    w * u
  }

  /** `np.random.randint(lo, hi)`: an integer in [lo, hi). */
  function RandInt(lo: int, hi: int, k: nat): (x: int)
    requires lo < hi
    ensures lo <= x < hi
  {
    lo + k % (hi - lo)
  }

  /** `np.random.choice(options)`: one of the options. */
  function Choice(options: seq<int>, k: nat): (x: int)
    requires |options| > 0
    ensures x in options
  {
    options[k % |options|]
  }

  /** One row of `X` = `np.column_stack([...])`: code, moisture, temperature, humidity, rainfall, base. */
  function Row(d: Draw): (row: seq<real>)
    requires ValidDraw(d)
    ensures |row| == 6
    ensures row[0] == RandInt(0, CropCodes, d.code) as real && 0.0 <= row[0] < CropCodes as real
    ensures 20.0 <= row[1] < 80.0 && 20.0 <= row[2] < 35.0 && 40.0 <= row[3] < 90.0 && 0.0 <= row[4] < 10.0
    ensures exists b | b in BaseChoices :: row[5] == b as real
  {
    [RandInt(0, CropCodes, d.code) as real,
     Uniform(20.0, 80.0, d.moisture),
     Uniform(20.0, 35.0, d.temperature),
     Uniform(40.0, 90.0, d.humidity),
     Uniform(0.0, 10.0, d.rainfall),
     Choice(BaseChoices, d.base) as real]
  }

  /** `y`: the requirement of the row's own readings plus the noise, clipped to [500, 10000]. */
  function Label(d: Draw): (y: real)
    requires ValidDraw(d)
    ensures Target.MinWater as real <= y <= Target.MaxWater as real
    ensures var row := Row(d);
      var v := Target.Requirement(row[5], row[2], row[1], row[4], row[3]) + d.noise;
      Target.MinWater as real <= v <= Target.MaxWater as real ==> y == v
  {
    var row := Row(d);
    Target.ClippedWater(row[5], row[2], row[1], row[4], row[3], d.noise)
  }

  /**
   * `X` and `y` for the draws of `n_samples` samples: one six-column row and
   * one target per draw, every target within [500, 10000].
   */
  function Samples(ds: seq<Draw>): (s: (seq<seq<real>>, seq<real>))
    requires forall i | 0 <= i < |ds| :: ValidDraw(ds[i])
    ensures |s.0| == |ds| && |s.1| == |ds|
    ensures forall i | 0 <= i < |ds| :: s.0[i] == Row(ds[i]) && |s.0[i]| == 6
    ensures forall i | 0 <= i < |ds| :: s.1[i] == Label(ds[i])
    ensures forall i | 0 <= i < |ds| :: Target.MinWater as real <= s.1[i] <= Target.MaxWater as real
  {
    (seq(|ds|, i requires 0 <= i < |ds| => Row(ds[i])), seq(|ds|, i requires 0 <= i < |ds| => Label(ds[i])))
  }

  /** The base choices are the seven table values and the default, and nothing else. */
  lemma BaseChoicesAreTableOutcomes()
    ensures forall c | c in AdaptData.CropRulesFull :: AdaptData.CropRulesFull[c] in BaseChoices
    ensures CropTable.DefaultBase in BaseChoices
    ensures forall b | b in BaseChoices :: b == CropTable.DefaultBase || b in AdaptData.CropRulesFull.Values
  {
    var table := AdaptData.CropRulesFull;
    forall b | b in BaseChoices && b != CropTable.DefaultBase
      ensures b in table.Values
    {
      var c :=
        if b == 4400 then "pomegranate" else if b == 4600 then "mango" else if b == 4700 then "watermelon"
        else if b == 4850 then "papaya" else if b == 5000 then "maize" else if b == 5100 then "banana"
        else "rice";
      assert table[c] == b;
    }
  }

  /** The seven crop codes are one per crop the table lists. */
  lemma OneCodePerCrop()
    ensures |AdaptData.CropRulesFull| == CropCodes
  {
    assert AdaptData.CropRulesFull.Keys == {"rice", "maize", "pomegranate", "banana", "mango", "watermelon", "papaya"};
  }

  /**
   * Every base choice lies in [4000, 6500], so with the readings in their
   * ranges the noiseless requirement lies strictly between 2600 and 7525:
   * without noise the clip to [500, 10000] never binds.
   */
  lemma NoiselessNeverClipped(d: Draw)
    requires ValidDraw(d) && d.noise == 0.0
    ensures var row := Row(d);
      var v := Target.Requirement(row[5], row[2], row[1], row[4], row[3]);
      2600.0 < v < 7525.0 && Label(d) == v
  {
    var row := Row(d);
    var b :| b in BaseChoices && row[5] == b as real;
    assert 4000.0 <= row[5] <= 6500.0;
  }
}
