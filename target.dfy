/**
 * Target synthesis: the agronomic formula that turns one observation into the
 * water requirement (litres per hectare) the regressors are trained on.
 */
module Target {

  /** The floor every synthesised requirement is raised to. */
  const MinWater: int := 500

  /** The upper bound of the clipped variant. */
  const MaxWater: int := 10000

  /**
   * Python's `int()` on a float: truncation toward zero. The result is the
   * integer nearest to `x` that lies between 0 and `x`.
   */
  function Trunc(x: real): (k: int)
    ensures x >= 0.0 ==> 0 <= k && k as real <= x < k as real + 1.0
    ensures x < 0.0 ==> k <= 0 && k as real - 1.0 < x <= k as real
  {
    if x >= 0.0 then x.Floor else -((-x).Floor)
  }

  /**
   * The deterministic part of the requirement:
   * base + 15 per degree, - 20 per moisture point, - 50 per mm of rain, + 10 per humidity point.
   */
  function Requirement(base: real, temperature: real, moisture: real, rainfall: real, humidity: real): real {
    base + temperature * 15.0 - moisture * 20.0 - rainfall * 50.0 + humidity * 10.0
  }

  /**
   * `calculate_water` of the data-engineering scripts: the requirement plus a
   * noise draw, truncated to an integer and floored at 500. Above the floor
   * the result is the floor of the noisy requirement; below it, exactly 500.
   */
  function CalculateWater(base: real, temperature: real, moisture: real, rainfall: real, humidity: real, noise: real): (w: int)
    ensures w >= MinWater
    ensures var v := Requirement(base, temperature, moisture, rainfall, humidity) + noise;
      w == if v >= MinWater as real then v.Floor else MinWater
  {
    var waterReq := Trunc(Requirement(base, temperature, moisture, rainfall, humidity) + noise);
    if MinWater >= waterReq then MinWater else waterReq
  }

  /** The noiseless `calculate_water` the verification and scatter scripts compare against. */
  function NoiselessWater(base: real, temperature: real, moisture: real, rainfall: real, humidity: real): (w: int)
    ensures w >= MinWater
  {
    var req := Requirement(base, temperature, moisture, rainfall, humidity);
    if MinWater >= Trunc(req) then MinWater else Trunc(req)
  }

  /** The noiseless target is the noisy one with a zero draw. */
  lemma NoiselessIsZeroNoise(base: real, temperature: real, moisture: real, rainfall: real, humidity: real)
    ensures NoiselessWater(base, temperature, moisture, rainfall, humidity)
         == CalculateWater(base, temperature, moisture, rainfall, humidity, 0.0)
  {
    assert Requirement(base, temperature, moisture, rainfall, humidity) + 0.0
        == Requirement(base, temperature, moisture, rainfall, humidity);
  }

  /** `np.clip(v, lo, hi)`. */
  function Clip(v: real, lo: real, hi: real): (r: real)
    requires lo <= hi
    ensures lo <= r <= hi
    ensures lo <= v <= hi ==> r == v
    ensures v < lo ==> r == lo
    ensures v > hi ==> r == hi
  {
    if v < lo then lo else if v > hi then hi else v
  }

  /** The clipped real-valued target of the quick-fix training data, within [500, 10000]. */
  function ClippedWater(base: real, temperature: real, moisture: real, rainfall: real, humidity: real, noise: real): (y: real)
    ensures MinWater as real <= y <= MaxWater as real
    ensures var v := Requirement(base, temperature, moisture, rainfall, humidity) + noise;
      MinWater as real <= v <= MaxWater as real ==> y == v
  {
    Clip(Requirement(base, temperature, moisture, rainfall, humidity) + noise, MinWater as real, MaxWater as real)
  }

  /**
   * The worked scenario: rice (base 6500) at 25 degrees, 50 % moisture, 2 mm
   * rain and 70 % humidity needs 6500 + 375 - 1000 - 100 + 700 = 6475 litres,
   * far above the floor; every target variant agrees on it without noise.
   */
  lemma RiceScenario()
    ensures CalculateWater(6500.0, 25.0, 50.0, 2.0, 70.0, 0.0) == 6475
    ensures NoiselessWater(6500.0, 25.0, 50.0, 2.0, 70.0) == 6475
    ensures ClippedWater(6500.0, 25.0, 50.0, 2.0, 70.0, 0.0) == 6475.0
  {
    assert Requirement(6500.0, 25.0, 50.0, 2.0, 70.0) == 6475.0;
  }
}
