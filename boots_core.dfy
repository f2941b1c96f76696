/** The static configuration of the BOOTS (ground operations) engine and the
    lookups every stage shares: the unit combat-strength table and the
    terrain-modifier table (both set once when the calculator is built and
    only read afterwards), the defaulting lookups into them, and the
    exceptions the engine can raise. */
module BootsCore {
  import opened Common

  /** What the engine raises instead of returning a result. */
  datatype BootsError =
    | EmptyDrawRange        // numpy `randint(lo, hi)` with `hi <= lo` raises ValueError
    | ArtyInNone            // `'Arty' in None` raises TypeError
    | KeyError(column: string)  // a column filter on a DataFrame built from an empty list

  /** Combat strength per battalion of each unit type. */
  const UnitCombatStrength: map<string, real> := map[
    "Light" := 1.0,
    "Medium" := 1.5,
    "Heavy" := 2.0,
    "Amphib" := 1.2,
    "SOF" := 1.8,
    "Towed_Arty" := 0.8,
    "SP_Arty" := 1.3,
    "C2" := 0.5,
    "Recon" := 0.7,
    "SHORAD" := 0.9,
    "Cargo_Handling" := 0.3,
    "Engineer" := 1.1,
    "Airborne" := 1.3,
    "Air_Assault" := 1.4,
    "DOS" := 0.2
  ]

  /** Multiplier that a terrain category applies. */
  const TerrainModifiers: map<string, real> := map[
    "urban" := 1.5,
    "forest" := 1.2,
    "mountain" := 1.8,
    "coastal" := 0.9,
    "open" := 1.0
  ]

  /** `unit_combat_strength.get(unit_type, 1.0)`; a missing type (None) is
      not a key of the table either. */
  function StrengthOf(unitType: Option<string>): (s: real)
    ensures 0.2 <= s <= 2.0
    ensures unitType.None? ==> s == 1.0
    ensures unitType.Some? && unitType.value !in UnitCombatStrength ==> s == 1.0
    ensures unitType.Some? && unitType.value in UnitCombatStrength ==> s == UnitCombatStrength[unitType.value]
  {
    match unitType
    case None => 1.0
    case Some(t) => LookupOr(UnitCombatStrength, t, 1.0)
  }

  /** `hex_terrain.get(hex, 'open')`: a hex absent from the map, or a missing
      hex, is open terrain. */
  function TerrainAt(hexTerrain: map<string, string>, hex: Option<string>): (t: string)
    ensures hex.None? ==> t == "open"
    ensures hex.Some? && hex.value in hexTerrain ==> t == hexTerrain[hex.value]
    ensures hex.Some? && hex.value !in hexTerrain ==> t == "open"
  {
    match hex
    case None => "open"
    case Some(h) => LookupOr(hexTerrain, h, "open")
  }

  /** `terrain_modifiers.get(terrain, 1.0)`: always between the coastal
      modifier and the mountain modifier. */
  function TerrainMod(terrain: string): (m: real)
    ensures 0.9 <= m <= 1.8
    ensures terrain !in TerrainModifiers ==> m == 1.0
    ensures terrain in TerrainModifiers ==> m == TerrainModifiers[terrain]
  {
    LookupOr(TerrainModifiers, terrain, 1.0)
  }

  /** One `{'type': ..., 'count': ...}` entry of a force list; a missing
      count is its default 0. */
  datatype UnitEntry = UnitEntry(unitType: Option<string>, count: int)

  predicate NonNegativeCounts(units: seq<UnitEntry>)
  {
    forall i :: 0 <= i < |units| ==> units[i].count >= 0
  }

  /** Total number of battalions in a force list. */
  function TotalCount(units: seq<UnitEntry>): (n: int)
    ensures NonNegativeCounts(units) ==> n >= 0
    decreases |units|
  {
    if units == [] then 0
    else
      assert NonNegativeCounts(units) ==> NonNegativeCounts(units[..|units| - 1]);
      TotalCount(units[..|units| - 1]) + units[|units| - 1].count
  }

  /** `count * unit_strength` of one entry: between 0.2 and 2.0 per battalion. */
  function EntryStrength(entry: UnitEntry): (s: real)
    ensures entry.count >= 0 ==> 0.2 * entry.count as real <= s <= 2.0 * entry.count as real
  {
    var c := entry.count as real;
    var str := StrengthOf(entry.unitType);
    assert c >= 0.0 ==> 0.2 * c <= c * str <= 2.0 * c by {
      if c >= 0.0 {
        MulBounds(c, str, 0.2, 2.0);
      }
    }
    c * str
  }

  /** Sum of `count * unit_strength` over a force list, accumulated left to
      right; with non-negative counts it lies between 0.2 and 2.0 times the
      number of battalions (the extremes of the strength table). */
  function ForceStrength(units: seq<UnitEntry>): (s: real)
    ensures NonNegativeCounts(units) ==> 0.2 * TotalCount(units) as real <= s <= 2.0 * TotalCount(units) as real
    decreases |units|
  {
    if units == [] then 0.0
    else
      assert NonNegativeCounts(units) ==> NonNegativeCounts(units[..|units| - 1]);
      ForceStrength(units[..|units| - 1]) + EntryStrength(units[|units| - 1])
  }

  lemma MulBounds(c: real, x: real, lo: real, hi: real)
    requires 0.0 <= c && lo <= x <= hi
    ensures lo * c <= c * x <= hi * c
  {
  }
}
