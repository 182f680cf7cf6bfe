/**
 * The crop base-water lookups. Every script carries its own literal copy of
 * the crop -> litres-per-hectare table; the two ways the scripts consult it
 * are modelled here once, over any such table.
 */
module CropTable {
  import opened Wrappers

  /** The base water given to a crop the table does not list. */
  const DefaultBase: int := 4000

  /** `table.get(crop, default)`. */
  function GetOr(table: map<string, int>, crop: string, default: int): (b: int)
    ensures crop in table ==> b == table[crop]
    ensures crop !in table ==> b == default
  {
    if crop in table then table[crop] else default
  }

  /** `Series.map(table)` on one value: no value (NaN) for an unlisted crop. */
  function MapLookup(table: map<string, int>, crop: string): (r: Option<int>)
    ensures r.Some? <==> crop in table
    ensures r.Some? ==> r.value == table[crop]
  {
    if crop in table then Some(table[crop]) else None
  }

  /** No listed crop has the default's value, so the default identifies unlisted crops. */
  predicate DefaultIsDistinct(table: map<string, int>, default: int) {
    forall c :: c in table ==> table[c] != default
  }

  /**
   * With such a table the looked-up base equals the default exactly for the
   * crops the table does not list.
   */
  lemma DefaultIffUnlisted(table: map<string, int>, crop: string, default: int)
    requires DefaultIsDistinct(table, default)
    ensures GetOr(table, crop, default) == default <==> crop !in table
  {
  }

  /** Every value a lookup with a default can produce. */
  function Outcomes(table: map<string, int>, default: int): (s: set<int>)
    ensures forall c :: GetOr(table, c, default) in s
    ensures forall b :: b in s ==> b == default || exists c :: c in table && table[c] == b
  {
    table.Values + {default}
  }
}
