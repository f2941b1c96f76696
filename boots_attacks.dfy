/** Stage 2 of the BOOTS engine: Red ground attacks. The attacking force and
    half of the supporting fire make the attack strength; the defence is a
    random multiple of it scaled by the target's terrain; their ratio, with
    the denominator floored at 0.1, grades the outcome. The one random
    draw per attack, `uniform(0.5, 1.5)`, is a parameter. */
module BootsAttacks {
  import opened Common
  import opened BootsCore

  datatype AttackOutcome = Success | Partial | Failure

  /** The `Outcome` label a row carries. */
  function OutcomeName(o: AttackOutcome): string
  {
    match o
    case Success => "Success"
    case Partial => "Partial"
    case Failure => "Failure"
  }

  /** An attack order; a missing force list is its default, the empty list. */
  datatype AttackOrder = AttackOrder(
    originHex: Option<string>,
    targetHex: Option<string>,
    attackingBns: seq<UnitEntry>,
    fireSupport: seq<UnitEntry>)

  datatype AttackRow = AttackRow(
    originHex: Option<string>,
    targetHex: Option<string>,
    attackStrength: real,
    defendingStrength: real,
    strengthRatio: real,
    outcome: AttackOutcome,
    casualtiesRatio: real,
    terrain: string,
    fireSupportUsed: bool)

  datatype Verdict = Verdict(outcome: AttackOutcome, casualtiesRatio: real)

  /** The outcome grading (first threshold met wins): Success from a ratio of
      2.0, Partial from 0.8, Failure below; each with its casualty ratio. */
  function Classify(ratio: real): (v: Verdict)
    ensures v.outcome == Success <==> ratio >= 2.0
    ensures v.outcome == Partial <==> 0.8 <= ratio < 2.0
    ensures v.outcome == Failure <==> ratio < 0.8
    ensures v.outcome == Success ==> v.casualtiesRatio == 0.1
    ensures v.outcome == Partial ==> v.casualtiesRatio == 0.2 || v.casualtiesRatio == 0.3
    ensures v.casualtiesRatio == 0.2 <==> 1.5 <= ratio < 2.0
    ensures v.casualtiesRatio == 0.3 <==> 0.8 <= ratio < 1.5
    ensures v.outcome == Failure ==> v.casualtiesRatio == 0.4
  {
    if ratio >= 2.0 then Verdict(Success, 0.1)
    else if ratio >= 1.5 then Verdict(Partial, 0.2)
    else if ratio >= 0.8 then Verdict(Partial, 0.3)
    else Verdict(Failure, 0.4)
  }

  /** Outcomes in order of merit. */
  function Rank(o: AttackOutcome): int
  {
    match o
    case Failure => 0
    case Partial => 1
    case Success => 2
  }

  /** A higher strength ratio never gives a worse outcome nor a higher
      casualty ratio. */
  lemma ClassifyMonotone(ratio1: real, ratio2: real)
    requires ratio1 <= ratio2
    ensures Rank(Classify(ratio1).outcome) <= Rank(Classify(ratio2).outcome)
    ensures Classify(ratio2).casualtiesRatio <= Classify(ratio1).casualtiesRatio
  {
  }

  predicate ValidAttackDraw(u: real)
  {
    0.5 <= u < 1.5
  }

  /** `uniform(0.5, 1.5) * total_attack_strength`, then `*= terrain_mod`. */
  function DefendingStrength(u: real, total: real, terrainMod: real): (d: real)
    ensures 0.5 <= u <= 1.5 && total >= 0.0 && terrainMod >= 0.0 ==>
      0.5 * (total * terrainMod) <= d <= 1.5 * (total * terrainMod)
  {
    var p := total * terrainMod;
    assert u * total * terrainMod == u * p;
    assert 0.5 <= u <= 1.5 && p >= 0.0 ==> u * p - 0.5 * p == (u - 0.5) * p >= 0.0;
    assert 0.5 <= u <= 1.5 && p >= 0.0 ==> 1.5 * p - u * p == (1.5 - u) * p >= 0.0;
    u * total * terrainMod
  }

  /** `total_attack_strength / max(defending_strength, 0.1)` */
  function StrengthRatio(total: real, defending: real): (q: real)
    ensures defending >= 0.1 ==> q * defending == total
    ensures defending < 0.1 ==> q == 10.0 * total
  {
    total / RealMax(defending, 0.1)
  }

  /** The row one attack order produces with the defence draw `u`. */
  function ResolveAttack(order: AttackOrder, hexTerrain: map<string, string>, u: real): (row: AttackRow)
    requires ValidAttackDraw(u)
    ensures row.originHex == order.originHex && row.targetHex == order.targetHex
    ensures row.attackStrength == ForceStrength(order.attackingBns) + 0.5 * ForceStrength(order.fireSupport)
    ensures row.terrain == TerrainAt(hexTerrain, order.targetHex)
    ensures row.defendingStrength == DefendingStrength(u, row.attackStrength, TerrainMod(row.terrain))
    ensures row.strengthRatio == StrengthRatio(row.attackStrength, row.defendingStrength)
    ensures Verdict(row.outcome, row.casualtiesRatio) == Classify(row.strengthRatio)
    ensures row.fireSupportUsed <==> |order.fireSupport| > 0
  {
    var total := ForceStrength(order.attackingBns) + 0.5 * ForceStrength(order.fireSupport);
    var terrain := TerrainAt(hexTerrain, order.targetHex);
    var defending := DefendingStrength(u, total, TerrainMod(terrain));
    var ratio := StrengthRatio(total, defending);
    var verdict := Classify(ratio);
    AttackRow(order.originHex, order.targetHex, total, defending, ratio, verdict.outcome,
              verdict.casualtiesRatio, terrain, |order.fireSupport| > 0)
  }

  /** The strength loops at the head of `_process_red_ground_attacks`. */
  method SumForceStrength(units: seq<UnitEntry>) returns (strength: real)
    ensures strength == ForceStrength(units)
  {
    strength := 0.0;
    var i := 0;
    while i < |units|
      invariant 0 <= i <= |units|
      invariant strength == ForceStrength(units[..i])
    {
      assert units[..i + 1][..i] == units[..i];
      strength := strength + EntryStrength(units[i]);
      i := i + 1;
    }
    assert units[..i] == units;
  }

  predicate ValidAttackDraws(attacks: seq<AttackOrder>, draws: seq<real>)
  {
    |draws| == |attacks| && forall i :: 0 <= i < |draws| ==> ValidAttackDraw(draws[i])
  }

  /** `_process_red_ground_attacks`: one row per attack order, in order. */
  method ProcessRedGroundAttacks(attacks: seq<AttackOrder>, hexTerrain: map<string, string>, draws: seq<real>)
    returns (attackData: seq<AttackRow>)
    requires ValidAttackDraws(attacks, draws)
    ensures |attackData| == |attacks|
    ensures forall i :: 0 <= i < |attacks| ==> attackData[i] == ResolveAttack(attacks[i], hexTerrain, draws[i])
  {
    attackData := [];
    var i := 0;
    while i < |attacks|
      invariant 0 <= i <= |attacks|
      invariant |attackData| == i
      invariant forall k :: 0 <= k < i ==> attackData[k] == ResolveAttack(attacks[k], hexTerrain, draws[k])
    {
      var attack := attacks[i];
      var attackStrength := SumForceStrength(attack.attackingBns);
      var fireSupportStrength := SumForceStrength(attack.fireSupport);
      var totalAttackStrength := attackStrength + 0.5 * fireSupportStrength;
      var terrain := TerrainAt(hexTerrain, attack.targetHex);
      var defendingStrength := DefendingStrength(draws[i], totalAttackStrength, TerrainMod(terrain));
      var strengthRatio := StrengthRatio(totalAttackStrength, defendingStrength);
      var outcome, casualtiesRatio;
      if strengthRatio >= 2.0 {
        outcome, casualtiesRatio := Success, 0.1;
      } else if strengthRatio >= 1.5 {
        outcome, casualtiesRatio := Partial, 0.2;
      } else if strengthRatio >= 0.8 {
        outcome, casualtiesRatio := Partial, 0.3;
      } else {
        outcome, casualtiesRatio := Failure, 0.4;
      }
      var row := AttackRow(attack.originHex, attack.targetHex, totalAttackStrength, defendingStrength,
                           strengthRatio, outcome, casualtiesRatio, terrain, |attack.fireSupport| > 0);
      assert row == ResolveAttack(attack, hexTerrain, draws[i]);
      attackData := attackData + [row];
      i := i + 1;
    }
  }

  // ---------------------------------------------------------------------
  // Properties of the attack stage
  // ---------------------------------------------------------------------

  /** An attack with no strength at all (no battalions, no fire support, or
      only zero counts) has ratio 0 and fails. */
  lemma ZeroStrengthAttackFails(order: AttackOrder, hexTerrain: map<string, string>, u: real)
    requires ValidAttackDraw(u)
    requires ForceStrength(order.attackingBns) == 0.0 && ForceStrength(order.fireSupport) == 0.0
    ensures ResolveAttack(order, hexTerrain, u).strengthRatio == 0.0
    ensures ResolveAttack(order, hexTerrain, u).outcome == Failure
    ensures ResolveAttack(order, hexTerrain, u).casualtiesRatio == 0.4
  {
  }

  /** With non-negative counts the attack strength is non-negative and so
      are the defence and the ratio. */
  lemma AttackStrengthNonNegative(order: AttackOrder, hexTerrain: map<string, string>, u: real)
    requires ValidAttackDraw(u)
    requires NonNegativeCounts(order.attackingBns) && NonNegativeCounts(order.fireSupport)
    ensures ResolveAttack(order, hexTerrain, u).attackStrength >= 0.0
    ensures ResolveAttack(order, hexTerrain, u).defendingStrength >= 0.0
    ensures ResolveAttack(order, hexTerrain, u).strengthRatio >= 0.0
  {
    var row := ResolveAttack(order, hexTerrain, u);
    ProductNonNegative(u, row.attackStrength, TerrainMod(row.terrain));
    RatioNonNegative(row.attackStrength, row.defendingStrength);
  }

  lemma ProductNonNegative(u: real, t: real, m: real)
    requires u >= 0.0 && t >= 0.0 && m >= 0.0
    ensures DefendingStrength(u, t, m) >= 0.0
  {
    assert u * t >= 0.0;
  }

  lemma RatioNonNegative(t: real, d: real)
    requires t >= 0.0
    ensures StrengthRatio(t, d) >= 0.0
  {
  }

  /** Once the defence reaches the 0.1 floor, the ratio no longer depends on
      the size of the force: it is 1 / (u * terrain modifier). */
  lemma RatioAtScale(order: AttackOrder, hexTerrain: map<string, string>, u: real)
    requires ValidAttackDraw(u)
    requires ResolveAttack(order, hexTerrain, u).defendingStrength >= 0.1
    ensures ResolveAttack(order, hexTerrain, u).strengthRatio
      == 1.0 / (u * TerrainMod(TerrainAt(hexTerrain, order.targetHex)))
  {
    var row := ResolveAttack(order, hexTerrain, u);
    ScaleFreeRatio(u, row.attackStrength, TerrainMod(row.terrain));
  }

  lemma ScaleFreeRatio(u: real, t: real, m: real)
    requires u > 0.0 && m > 0.0 && DefendingStrength(u, t, m) >= 0.1
    ensures StrengthRatio(t, DefendingStrength(u, t, m)) == 1.0 / (u * m)
  {
    var k := u * m;
    assert DefendingStrength(u, t, m) == k * t;
    assert t != 0.0;
    assert t / (k * t) == 1.0 / k;
  }

  /** Consequently, against a defence at or above the floor an attack
      succeeds only when the draw times the terrain modifier is at most 0.5:
      on open ground only with the lowest draw, 0.5, and never on urban,
      forest or mountain hexes. */
  lemma SuccessNeedsWeakDefence(order: AttackOrder, hexTerrain: map<string, string>, u: real)
    requires ValidAttackDraw(u)
    requires ResolveAttack(order, hexTerrain, u).defendingStrength >= 0.1
    requires ResolveAttack(order, hexTerrain, u).outcome == Success
    ensures u * TerrainMod(TerrainAt(hexTerrain, order.targetHex)) <= 0.5
    ensures TerrainMod(TerrainAt(hexTerrain, order.targetHex)) <= 1.0
  {
    RatioAtScale(order, hexTerrain, u);
    InverseAtLeastTwo(u * TerrainMod(TerrainAt(hexTerrain, order.targetHex)));
  }

  lemma InverseAtLeastTwo(k: real)
    requires k > 0.0 && 1.0 / k >= 2.0
    ensures k <= 0.5
  {
    assert k * (1.0 / k) == 1.0;
  }

  /** The worked case of a 10.0-strength attack against a 4.0 defence
      (ratio 2.5): Success with casualty ratio 0.1. */
  lemma OverwhelmingAttackScenario()
    ensures Classify(10.0 / RealMax(4.0, 0.1)) == Verdict(Success, 0.1)
  {
  }

  /** Number of rows with a given outcome. */
  function CountOutcome(rows: seq<AttackRow>, o: AttackOutcome): (n: nat)
    ensures n <= |rows|
    decreases |rows|
  {
    if rows == [] then 0
    else CountOutcome(rows[..|rows| - 1], o) + (if rows[|rows| - 1].outcome == o then 1 else 0)
  }

  /** Every row has exactly one outcome. */
  lemma {:induction false} OutcomeCountsPartition(rows: seq<AttackRow>)
    ensures CountOutcome(rows, Success) + CountOutcome(rows, Partial) + CountOutcome(rows, Failure) == |rows|
    decreases |rows|
  {
    if rows != [] {
      OutcomeCountsPartition(rows[..|rows| - 1]);
    }
  }
}
