/** Stage 5 of the BOOTS engine: casualty records. Every attack row yields a
    Red record of `int(10 * casualties ratio)` casualties at its target hex;
    then every fire-support plan, in the dictionary's order, yields a Red
    record of `int(effectiveness / 10)` casualties at "Various". */
module BootsCasualties {
  import opened Common
  import opened OrderedMaps
  import opened BootsCore
  import opened BootsAttacks

  datatype CasualtyRecord = CasualtyRecord(
    team: string,
    operation: string,
    hex: Option<string>,
    casualties: int,
    reason: string)

  /** The record for one attack row. */
  function AttackCasualty(attack: AttackRow): (c: CasualtyRecord)
    ensures c.team == "Red" && c.operation == "Ground_Attack" && c.hex == attack.targetHex
    ensures 0.0 <= attack.casualtiesRatio ==>
      0 <= c.casualties && c.casualties as real <= 10.0 * attack.casualtiesRatio < c.casualties as real + 1.0
  {
    CasualtyRecord("Red", "Ground_Attack", attack.targetHex, Trunc(10.0 * attack.casualtiesRatio),
                   "Attack " + OutcomeName(attack.outcome))
  }

  /** The record for one fire-support plan. */
  function FireCasualty(planId: string, effectiveness: real): (c: CasualtyRecord)
    ensures c.team == "Red" && c.operation == "Fire_Support" && c.hex == Some("Various")
    ensures 0.0 <= effectiveness ==> 0 <= c.casualties && 10.0 * c.casualties as real <= effectiveness
  {
    CasualtyRecord("Red", "Fire_Support", Some("Various"), Trunc(effectiveness / 10.0),
                   "Fire support plan " + planId)
  }

  /** Specification of `_calculate_unit_casualties`: the attack records in
      row order, then the fire-support records in key order. */
  function UnitCasualties(attackResults: seq<AttackRow>, fireSupport: OrderedMap<string, real>): (records: seq<CasualtyRecord>)
    requires Valid(fireSupport)
    ensures |records| == |attackResults| + |fireSupport.keys|
    ensures forall i :: 0 <= i < |records| ==>
      records[i].team == "Red" && (records[i].operation == "Ground_Attack" <==> i < |attackResults|)
  {
    seq(|attackResults|, i requires 0 <= i < |attackResults| => AttackCasualty(attackResults[i]))
    + seq(|fireSupport.keys|, j requires 0 <= j < |fireSupport.keys| =>
            FireCasualty(fireSupport.keys[j], fireSupport.entries[fireSupport.keys[j]]))
  }

  /** `_calculate_unit_casualties` */
  method CalculateUnitCasualties(attackResults: seq<AttackRow>, fireSupport: OrderedMap<string, real>)
    returns (casualtyData: seq<CasualtyRecord>)
    requires Valid(fireSupport)
    ensures casualtyData == UnitCasualties(attackResults, fireSupport)
  {
    casualtyData := [];
    for i := 0 to |attackResults|
      invariant |casualtyData| == i
      invariant forall k :: 0 <= k < i ==> casualtyData[k] == AttackCasualty(attackResults[k])
    {
      var attack := attackResults[i];
      casualtyData := casualtyData + [AttackCasualty(attack)];
    }
    var n := |attackResults|;
    for j := 0 to |fireSupport.keys|
      invariant |casualtyData| == n + j
      invariant forall k :: 0 <= k < n ==> casualtyData[k] == AttackCasualty(attackResults[k])
      invariant forall k :: 0 <= k < j ==>
        casualtyData[n + k] == FireCasualty(fireSupport.keys[k], fireSupport.entries[fireSupport.keys[k]])
    {
      var planId := fireSupport.keys[j];
      var effectiveness := fireSupport.entries[planId];
      casualtyData := casualtyData + [FireCasualty(planId, effectiveness)];
    }
  }

  /** An attack's casualties follow its grade: 1 for a success, 2 for a
      partial result at a strength ratio of 1.5 or more, 3 for a lesser
      partial result, 4 for a failure. */
  lemma AttackCasualtiesByOutcome(order: AttackOrder, hexTerrain: map<string, string>, u: real)
    requires ValidAttackDraw(u)
    ensures var row := ResolveAttack(order, hexTerrain, u);
      var c := AttackCasualty(row).casualties;
      && (row.outcome == Success ==> c == 1)
      && (row.outcome == Partial && row.strengthRatio >= 1.5 ==> c == 2)
      && (row.outcome == Partial && row.strengthRatio < 1.5 ==> c == 3)
      && (row.outcome == Failure ==> c == 4)
      && AttackCasualty(row).reason == "Attack " + OutcomeName(row.outcome)
  {
    var row := ResolveAttack(order, hexTerrain, u);
    assert Verdict(row.outcome, row.casualtiesRatio) == Classify(row.strengthRatio);
  }

  /** A fire-support effectiveness in [0, 95] gives between 0 and 9
      casualties, one per full ten percent. */
  lemma FireCasualtiesBounded(planId: string, effectiveness: real)
    requires 0.0 <= effectiveness <= 95.0
    ensures var c := FireCasualty(planId, effectiveness).casualties;
      0 <= c <= 9 && 10.0 * c as real <= effectiveness < 10.0 * (c + 1) as real
  {
  }

  /** One record per attack row and one per plan id, each plan's record
      carrying its id and effectiveness. */
  lemma UnitCasualtiesShape(attackResults: seq<AttackRow>, fireSupport: OrderedMap<string, real>)
    requires Valid(fireSupport)
    ensures |UnitCasualties(attackResults, fireSupport)| == |attackResults| + |fireSupport.entries|
    ensures forall k :: k in fireSupport.entries ==>
      FireCasualty(k, fireSupport.entries[k]) in UnitCasualties(attackResults, fireSupport)
    ensures forall r :: r in UnitCasualties(attackResults, fireSupport) ==> r.team == "Red"
  {
    ValidSize(fireSupport);
    var records := UnitCasualties(attackResults, fireSupport);
    var n := |attackResults|;
    forall k | k in fireSupport.entries
      ensures FireCasualty(k, fireSupport.entries[k]) in records
    {
      assert k in KeySet(fireSupport);
      var j :| 0 <= j < |fireSupport.keys| && fireSupport.keys[j] == k;
      assert records[n + j] == FireCasualty(k, fireSupport.entries[k]);
    }
  }
}
