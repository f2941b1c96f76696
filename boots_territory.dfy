/** Stage 6 of the BOOTS engine: territory control. Successful landings give
    Red control of their hex with the landed battalions as strength;
    successful attacks give Red control of the target with the attack
    strength; partial attacks leave the target contested at half the attack
    strength. Failed landings and failed attacks leave no record. */
module BootsTerritory {
  import opened Common
  import opened BootsCore
  import opened BootsLandings
  import opened BootsAttacks

  datatype ControlRecord = ControlRecord(
    hex: Option<string>,
    control: string,
    strength: real,
    source: string)

  /** The record a successful landing leaves. */
  function LandingRecord(landing: LandingRow): (c: ControlRecord)
    ensures c.hex == landing.hex && c.control == "Red" && c.strength == landing.bnsLanded as real
    ensures c.source == "Airborne Landing" <==> landing.operationType == Airborne
  {
    ControlRecord(landing.hex, "Red", landing.bnsLanded as real, OperationTypeName(landing.operationType) + " Landing")
  }

  /** The record a successful or partial attack leaves. */
  function AttackRecord(attack: AttackRow): (c: ControlRecord)
    ensures c.hex == attack.targetHex
    ensures c.control == "Red" <==> attack.outcome == Success
    ensures c.control == "Contested" <==> attack.outcome != Success
    ensures attack.attackStrength >= 0.0 ==> 0.0 <= c.strength <= attack.attackStrength
  {
    if attack.outcome == Success then ControlRecord(attack.targetHex, "Red", attack.attackStrength, "Ground Attack")
    else ControlRecord(attack.targetHex, "Contested", attack.attackStrength / 2.0, "Partial Attack")
  }

  /** Number of successful landing rows. */
  function CountLanded(rows: seq<LandingRow>): (n: nat)
    ensures n <= |rows|
    decreases |rows|
  {
    if rows == [] then 0
    else CountLanded(rows[..|rows| - 1]) + (if rows[|rows| - 1].success then 1 else 0)
  }

  /** The records of the successful landings, in row order. */
  function LandingControl(rows: seq<LandingRow>): (records: seq<ControlRecord>)
    ensures |records| == CountLanded(rows)
    decreases |rows|
  {
    if rows == [] then []
    else
      var last := rows[|rows| - 1];
      LandingControl(rows[..|rows| - 1]) + (if last.success then [LandingRecord(last)] else [])
  }

  /** The records of the attacks with outcome `o`, in row order. */
  function AttackControl(rows: seq<AttackRow>, o: AttackOutcome): (records: seq<ControlRecord>)
    ensures |records| == CountOutcome(rows, o)
    decreases |rows|
  {
    if rows == [] then []
    else
      var last := rows[|rows| - 1];
      AttackControl(rows[..|rows| - 1], o) + (if last.outcome == o then [AttackRecord(last)] else [])
  }

  /** Specification of `_update_territory_control`: landings, then successful
      attacks, then partial attacks. */
  function TerritoryControl(landings: seq<LandingRow>, attacks: seq<AttackRow>): (records: seq<ControlRecord>)
    ensures |records| <= |landings| + |attacks|
    ensures records == [] <==>
      CountLanded(landings) == 0 && CountOutcome(attacks, Success) == 0 && CountOutcome(attacks, Partial) == 0
  {
    OutcomeCountsPartition(attacks);
    LandingControl(landings) + AttackControl(attacks, Success) + AttackControl(attacks, Partial)
  }

  /** `_update_territory_control` as written: a column filter on the table
      built from an empty list raises KeyError, so no landing rows, or else no
      attack rows, raise instead of giving an empty selection. */
  function TerritoryControlAsWritten(landings: seq<LandingRow>, attacks: seq<AttackRow>)
    : (r: Result<seq<ControlRecord>, BootsError>)
    ensures r.Ok? <==> landings != [] && attacks != []
    ensures r.Err? ==> r.error == KeyError(if landings == [] then "Success" else "Outcome")
    ensures r.Ok? ==> r.value == TerritoryControl(landings, attacks)
  {
    if landings == [] then Err(KeyError("Success"))
    else if attacks == [] then Err(KeyError("Outcome"))
    else Ok(TerritoryControl(landings, attacks))
  }

  /** `_update_territory_control` with the empty cases selecting nothing. */
  method UpdateTerritoryControl(landings: seq<LandingRow>, attacks: seq<AttackRow>)
    returns (controlData: seq<ControlRecord>)
    ensures controlData == TerritoryControl(landings, attacks)
  {
    controlData := [];
    var i := 0;
    while i < |landings|
      invariant 0 <= i <= |landings|
      invariant controlData == LandingControl(landings[..i])
    {
      assert landings[..i + 1][..i] == landings[..i];
      var landing := landings[i];
      if landing.success {
        controlData := controlData + [LandingRecord(landing)];
      }
      i := i + 1;
    }
    assert landings[..i] == landings;
    var successful := AttackRecords(attacks, Success);
    var partial := AttackRecords(attacks, Partial);
    controlData := controlData + successful + partial;
  }

  /** One of the two attack loops of `_update_territory_control`: the
      records of the attacks with outcome `o`, in row order. */
  method AttackRecords(attacks: seq<AttackRow>, o: AttackOutcome) returns (records: seq<ControlRecord>)
    ensures records == AttackControl(attacks, o)
  {
    records := [];
    var i := 0;
    while i < |attacks|
      invariant 0 <= i <= |attacks|
      invariant records == AttackControl(attacks[..i], o)
    {
      assert attacks[..i + 1][..i] == attacks[..i];
      var attack := attacks[i];
      if attack.outcome == o {
        records := records + [AttackRecord(attack)];
      }
      i := i + 1;
    }
    assert attacks[..i] == attacks;
  }

  // ---------------------------------------------------------------------
  // Properties of the territory stage
  // ---------------------------------------------------------------------

  /** A record stems from a landing exactly when that landing succeeded. */
  lemma {:induction false} LandingControlMembers(rows: seq<LandingRow>, r: ControlRecord)
    ensures r in LandingControl(rows) <==> exists i :: 0 <= i < |rows| && rows[i].success && r == LandingRecord(rows[i])
    decreases |rows|
  {
    if rows != [] {
      var prefix := rows[..|rows| - 1];
      var last := rows[|rows| - 1];
      LandingControlMembers(prefix, r);
      InSnoc(LandingControl(prefix), LandingRecord(last), last.success, r);
      if r in LandingControl(rows) {
        if r in LandingControl(prefix) {
          var i :| 0 <= i < |prefix| && prefix[i].success && r == LandingRecord(prefix[i]);
          assert rows[i] == prefix[i];
        }
      } else {
        forall i | 0 <= i < |rows| && rows[i].success
          ensures r != LandingRecord(rows[i])
        {
          if i < |prefix| {
            assert rows[i] == prefix[i];
          }
        }
      }
    }
  }

  /** Membership in a sequence that may have gained one last element. */
  lemma InSnoc<T>(a: seq<T>, x: T, b: bool, r: T)
    ensures r in a + (if b then [x] else []) <==> r in a || (b && r == x)
  {
  }

  /** A record stems from an attack with outcome `o` exactly when some attack
      had that outcome. */
  lemma {:induction false} AttackControlMembers(rows: seq<AttackRow>, o: AttackOutcome, r: ControlRecord)
    ensures r in AttackControl(rows, o) <==> exists i :: 0 <= i < |rows| && rows[i].outcome == o && r == AttackRecord(rows[i])
    decreases |rows|
  {
    if rows != [] {
      var prefix := rows[..|rows| - 1];
      AttackControlMembers(prefix, o, r);
      assert forall i :: 0 <= i < |prefix| ==> prefix[i] == rows[i];
      if r in AttackControl(rows, o) {
        if r in AttackControl(prefix, o) {
          var i :| 0 <= i < |prefix| && prefix[i].outcome == o && r == AttackRecord(prefix[i]);
          assert rows[i] == prefix[i];
        } else {
          assert rows[|rows| - 1].outcome == o && r == AttackRecord(rows[|rows| - 1]);
        }
      } else {
        forall i | 0 <= i < |rows| && rows[i].outcome == o
          ensures r != AttackRecord(rows[i])
        {
          if i < |prefix| {
            assert rows[i] == prefix[i];
          }
        }
      }
    }
  }

  /** What each territory record says: Red control from a successful landing
      or attack, at the landed battalions or the full attack strength;
      contested control from a partial attack, at half its strength; nothing
      from a failed attack. */
  lemma TerritoryControlSources(landings: seq<LandingRow>, attacks: seq<AttackRow>, r: ControlRecord)
    requires r in TerritoryControl(landings, attacks)
    ensures || (exists i :: 0 <= i < |landings| && landings[i].success && r == LandingRecord(landings[i]))
            || (exists i :: 0 <= i < |attacks| && attacks[i].outcome == Success &&
                  r == ControlRecord(attacks[i].targetHex, "Red", attacks[i].attackStrength, "Ground Attack"))
            || (exists i :: 0 <= i < |attacks| && attacks[i].outcome == Partial &&
                  r == ControlRecord(attacks[i].targetHex, "Contested", attacks[i].attackStrength / 2.0, "Partial Attack"))
    ensures r.control == "Contested" <==> r.source == "Partial Attack"
  {
    LandingControlMembers(landings, r);
    AttackControlMembers(attacks, Success, r);
    AttackControlMembers(attacks, Partial, r);
  }

  /** One record per successful landing, per successful attack and per
      partial attack. */
  lemma TerritoryControlCount(landings: seq<LandingRow>, attacks: seq<AttackRow>)
    ensures |TerritoryControl(landings, attacks)| ==
      CountLanded(landings) + CountOutcome(attacks, Success) + CountOutcome(attacks, Partial)
    ensures |TerritoryControl(landings, attacks)| <= |landings| + |attacks|
  {
    OutcomeCountsPartition(attacks);
  }

  /** With no landing rows the source raises KeyError, where an empty
      selection gives no records. */
  lemma EmptyLandingsRaise(attacks: seq<AttackRow>)
    ensures TerritoryControlAsWritten([], attacks) == Err(KeyError("Success"))
    ensures TerritoryControl([], []) == []
  {
  }
}
