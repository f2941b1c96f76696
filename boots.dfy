/** `calculate_boots_operations`: the six BOOTS stages in order (landings,
    ground attacks, movements, fire support, casualties, territory control)
    and the summary counts over their results. The random draws the
    landing and attack stages consume are supplied up front. */
module Boots {
  import opened Common
  import opened OrderedMaps
  import opened BootsCore
  import opened BootsLandings
  import opened BootsAttacks
  import opened BootsMovements
  import opened BootsFireSupport
  import opened BootsCasualties
  import opened BootsTerritory

  /** Red's orders; a missing list is the empty list. */
  datatype RedOperations = RedOperations(
    airborneLandings: seq<LandingOrder>,
    airAssaultLandings: seq<LandingOrder>,
    groundAttacks: seq<AttackOrder>)

  /** Blue's orders; a missing list is the empty list. */
  datatype BlueOperations = BlueOperations(
    maneuverMovements: seq<MovementOrder>,
    fireSupportPlans: seq<FireSupportPlan>)

  /** The landing draws (airborne orders first) and one draw per attack. */
  datatype Draws = Draws(landings: seq<LandingDraw>, attacks: seq<real>)

  datatype BootsResults = BootsResults(
    landingResults: seq<LandingRow>,
    attackResults: seq<AttackRow>,
    movementResults: seq<MovementRow>,
    unitCasualties: seq<CasualtyRecord>,
    territoryControl: seq<ControlRecord>,
    fireSupportEffectiveness: OrderedMap<string, real>,
    totalLandingsAttempted: int,
    totalLandingsSuccessful: int,
    totalAttacksAttempted: int,
    totalAttacksSuccessful: int,
    warnings: seq<string>)

  predicate ValidDrawsFor(red: RedOperations, draws: Draws)
  {
    && ValidLandingDraws(red.airborneLandings, red.airAssaultLandings, draws.landings)
    && ValidAttackDraws(red.groundAttacks, draws.attacks)
  }

  /** The attack stage's rows. */
  function AttackResults(attacks: seq<AttackOrder>, hexTerrain: map<string, string>, draws: seq<real>): seq<AttackRow>
    requires ValidAttackDraws(attacks, draws)
  {
    seq(|attacks|, i requires 0 <= i < |attacks| => ResolveAttack(attacks[i], hexTerrain, draws[i]))
  }

  /** The row one movement order yields. */
  function MovementResult(m: MovementOrder): (row: MovementRow)
    ensures row.unitId == m.unitId && row.unitType == m.unitType && row.unitCount == m.unitCount
    ensures row.fromTO == m.fromTO && row.toTO == m.toTO
    ensures !row.success <==> {m.fromTO, m.toTO} == {Some(3), Some(4)}
    ensures row.reason == MovementCompleted <==> row.success
  {
    var ok := CanMove(m.fromTO, m.toTO);
    MovementRow(m.unitId, m.unitType, m.unitCount, m.fromTO, m.toTO, ok,
                if ok then MovementCompleted else MovementRestricted)
  }

  function MovementResults(movements: seq<MovementOrder>): seq<MovementRow>
  {
    seq(|movements|, i requires 0 <= i < |movements| => MovementResult(movements[i]))
  }

  /** The bundle once landings and fire support have not raised. */
  function Bundle(red: RedOperations, landings: seq<LandingRow>, attacks: seq<AttackRow>,
                  movements: seq<MovementRow>, fireSupport: OrderedMap<string, real>,
                  territory: seq<ControlRecord>): BootsResults
    requires Valid(fireSupport)
  {
    BootsResults(landings, attacks, movements, UnitCasualties(attacks, fireSupport), territory, fireSupport,
                 |red.airborneLandings| + |red.airAssaultLandings|, CountLanded(landings),
                 |red.groundAttacks|, CountOutcome(attacks, Success), [])
  }

  /** Specification of `calculate_boots_operations`, with the territory
      stage and the summary selecting nothing from an empty table. */
  function Resolve(red: RedOperations, blue: BlueOperations, hexTerrain: map<string, string>, draws: Draws)
    : (r: Result<BootsResults, BootsError>)
    requires ValidDrawsFor(red, draws)
    ensures r.Err? ==> r.error == EmptyDrawRange || r.error == ArtyInNone
    ensures r.Ok? ==>
      && |r.value.landingResults| == r.value.totalLandingsAttempted == |red.airborneLandings| + |red.airAssaultLandings|
      && |r.value.attackResults| == r.value.totalAttacksAttempted == |red.groundAttacks|
      && |r.value.movementResults| == |blue.maneuverMovements|
      && Valid(r.value.fireSupportEffectiveness)
      && r.value.warnings == []
  {
    match RedLandings(red.airborneLandings, red.airAssaultLandings, hexTerrain, draws.landings)
    case Err(e) => Err(e)
    case Ok(landings) =>
      var attacks := AttackResults(red.groundAttacks, hexTerrain, draws.attacks);
      match AllPlanEffectiveness(blue.fireSupportPlans)
      case Err(e) => Err(e)
      case Ok(fireSupport) =>
        Ok(Bundle(red, landings, attacks, MovementResults(blue.maneuverMovements), fireSupport,
                  TerritoryControl(landings, attacks)))
  }

  /** `calculate_boots_operations` as written: the territory stage (and,
      with the same columns, the summary after it) raises KeyError when
      there are no landing rows or no attack rows. */
  function ResolveAsWritten(red: RedOperations, blue: BlueOperations, hexTerrain: map<string, string>, draws: Draws)
    : (r: Result<BootsResults, BootsError>)
    requires ValidDrawsFor(red, draws)
    ensures r.Ok? ==> r == Resolve(red, blue, hexTerrain, draws)
    ensures r.Err? && Resolve(red, blue, hexTerrain, draws).Ok? ==>
      r.error == KeyError("Success") || r.error == KeyError("Outcome")
  {
    match RedLandings(red.airborneLandings, red.airAssaultLandings, hexTerrain, draws.landings)
    case Err(e) => Err(e)
    case Ok(landings) =>
      var attacks := AttackResults(red.groundAttacks, hexTerrain, draws.attacks);
      match AllPlanEffectiveness(blue.fireSupportPlans)
      case Err(e) => Err(e)
      case Ok(fireSupport) =>
        match TerritoryControlAsWritten(landings, attacks)
        case Err(e) => Err(e)
        case Ok(territory) =>
          Ok(Bundle(red, landings, attacks, MovementResults(blue.maneuverMovements), fireSupport, territory))
  }

  /** `calculate_boots_operations`, stage by stage. */
  method CalculateBootsOperations(red: RedOperations, blue: BlueOperations, hexTerrain: map<string, string>,
                                  draws: Draws)
    returns (r: Result<BootsResults, BootsError>)
    requires ValidDrawsFor(red, draws)
    ensures r == Resolve(red, blue, hexTerrain, draws)
  {
    var landingResults := ProcessRedLandings(red.airborneLandings, red.airAssaultLandings, hexTerrain, draws.landings);
    if landingResults.Err? {
      return Err(landingResults.error);
    }
    var attackResults := AttackStage(red.groundAttacks, hexTerrain, draws.attacks);
    var movementResults := MovementStage(blue.maneuverMovements);
    var fireSupportEffectiveness := ProcessBlueFireSupport(blue.fireSupportPlans);
    if fireSupportEffectiveness.Err? {
      return Err(fireSupportEffectiveness.error);
    }
    var results := Summarise(red, landingResults.value, attackResults, movementResults,
                             fireSupportEffectiveness.value);
    r := Ok(results);
    ResolveOk(red, blue, hexTerrain, draws, landingResults.value, fireSupportEffectiveness.value);
  }

  /** Steps 5 and 6 and the summary counts, once nothing has raised. */
  method Summarise(red: RedOperations, landingResults: seq<LandingRow>, attackResults: seq<AttackRow>,
                   movementResults: seq<MovementRow>, fireSupportEffectiveness: OrderedMap<string, real>)
    returns (results: BootsResults)
    requires Valid(fireSupportEffectiveness)
    ensures results == Bundle(red, landingResults, attackResults, movementResults, fireSupportEffectiveness,
                              TerritoryControl(landingResults, attackResults))
  {
    var warnings: seq<string> := [];
    var unitCasualties := CalculateUnitCasualties(attackResults, fireSupportEffectiveness);
    var territoryControl := UpdateTerritoryControl(landingResults, attackResults);
    var totalLandingsAttempted := |red.airborneLandings| + |red.airAssaultLandings|;
    var totalLandingsSuccessful := CountLanded(landingResults);
    var totalAttacksAttempted := |red.groundAttacks|;
    var totalAttacksSuccessful := CountOutcome(attackResults, Success);
    results := BootsResults(landingResults, attackResults, movementResults, unitCasualties, territoryControl,
                            fireSupportEffectiveness, totalLandingsAttempted, totalLandingsSuccessful,
                            totalAttacksAttempted, totalAttacksSuccessful, warnings);
  }

  /** The attack stage, summed up as the rows `Resolve` uses. */
  method AttackStage(attacks: seq<AttackOrder>, hexTerrain: map<string, string>, draws: seq<real>)
    returns (rows: seq<AttackRow>)
    requires ValidAttackDraws(attacks, draws)
    ensures rows == AttackResults(attacks, hexTerrain, draws)
  {
    rows := ProcessRedGroundAttacks(attacks, hexTerrain, draws);
    AttackResultsPointwise(attacks, hexTerrain, draws, rows);
  }

  /** The movement stage, summed up as the rows `Resolve` uses. */
  method MovementStage(movements: seq<MovementOrder>) returns (rows: seq<MovementRow>)
    ensures rows == MovementResults(movements)
  {
    rows := ProcessBlueMovements(movements);
    MovementResultsPointwise(movements, rows);
  }

  /** `Resolve` once neither raising stage has raised. */
  lemma ResolveOk(red: RedOperations, blue: BlueOperations, hexTerrain: map<string, string>, draws: Draws,
                  landings: seq<LandingRow>, fireSupport: OrderedMap<string, real>)
    requires ValidDrawsFor(red, draws)
    requires RedLandings(red.airborneLandings, red.airAssaultLandings, hexTerrain, draws.landings) == Ok(landings)
    requires AllPlanEffectiveness(blue.fireSupportPlans) == Ok(fireSupport)
    ensures Valid(fireSupport)
    ensures var attacks := AttackResults(red.groundAttacks, hexTerrain, draws.attacks);
      Resolve(red, blue, hexTerrain, draws)
        == Ok(Bundle(red, landings, attacks, MovementResults(blue.maneuverMovements), fireSupport,
                     TerritoryControl(landings, attacks)))
  {
  }

  lemma AttackResultsPointwise(attacks: seq<AttackOrder>, hexTerrain: map<string, string>, draws: seq<real>,
                                rows: seq<AttackRow>)
    requires ValidAttackDraws(attacks, draws)
    requires |rows| == |attacks|
    requires forall i :: 0 <= i < |attacks| ==> rows[i] == ResolveAttack(attacks[i], hexTerrain, draws[i])
    ensures rows == AttackResults(attacks, hexTerrain, draws)
  {
  }

  lemma MovementResultsPointwise(movements: seq<MovementOrder>, rows: seq<MovementRow>)
    requires |rows| == |movements|
    requires forall i :: 0 <= i < |movements| ==>
      var m := movements[i];
      var row := rows[i];
      && row.unitId == m.unitId && row.unitType == m.unitType && row.unitCount == m.unitCount
      && row.fromTO == m.fromTO && row.toTO == m.toTO
      && row.success == CanMove(m.fromTO, m.toTO)
      && row.reason == (if row.success then MovementCompleted else MovementRestricted)
    ensures rows == MovementResults(movements)
  {
  }

  // ---------------------------------------------------------------------
  // Properties of the whole resolution
  // ---------------------------------------------------------------------

  /** The resolution raises exactly when a landing draw range is empty or a
      fire-support unit has no type, and then with that exception. */
  lemma ResolveRaises(red: RedOperations, blue: BlueOperations, hexTerrain: map<string, string>, draws: Draws)
    requires ValidDrawsFor(red, draws)
    ensures Resolve(red, blue, hexTerrain, draws).Err? <==>
      RedLandings(red.airborneLandings, red.airAssaultLandings, hexTerrain, draws.landings).Err? ||
      exists i :: 0 <= i < |blue.fireSupportPlans| && PlanValue(blue.fireSupportPlans[i]).Err?
    ensures Resolve(red, blue, hexTerrain, draws).Err? ==>
      Resolve(red, blue, hexTerrain, draws).error in {EmptyDrawRange, ArtyInNone}
  {
    RedLandingsRaise(red.airborneLandings, red.airAssaultLandings, hexTerrain, draws.landings);
    AllPlanEffectivenessRaises(blue.fireSupportPlans);
  }

  /** The summary counts: every attempted landing and attack has a row, the
      successes are among them, and each stage's output has its size. */
  lemma SummaryCounts(red: RedOperations, blue: BlueOperations, hexTerrain: map<string, string>, draws: Draws)
    requires ValidDrawsFor(red, draws)
    requires Resolve(red, blue, hexTerrain, draws).Ok?
    ensures var b := Resolve(red, blue, hexTerrain, draws).value;
      && |b.landingResults| == b.totalLandingsAttempted
      && 0 <= b.totalLandingsSuccessful <= b.totalLandingsAttempted
      && |b.attackResults| == b.totalAttacksAttempted
      && 0 <= b.totalAttacksSuccessful <= b.totalAttacksAttempted
      && |b.movementResults| == |blue.maneuverMovements|
      && |b.unitCasualties| == b.totalAttacksAttempted + |b.fireSupportEffectiveness.entries|
      && |b.fireSupportEffectiveness.entries| <= |blue.fireSupportPlans|
      && |b.territoryControl| <= b.totalLandingsAttempted + b.totalAttacksAttempted
      && b.warnings == []
      && b.totalLandingsSuccessful == CountLanded(b.landingResults)
      && b.totalAttacksSuccessful == CountOutcome(b.attackResults, Success)
  {
    var b := Resolve(red, blue, hexTerrain, draws).value;
    RedLandingsPerOrder(red.airborneLandings, red.airAssaultLandings, hexTerrain, draws.landings, b.landingResults);
    UnitCasualtiesShape(b.attackResults, b.fireSupportEffectiveness);
    ValidSize(b.fireSupportEffectiveness);
    TerritoryControlCount(b.landingResults, b.attackResults);
  }

  /** Zero orders of every kind give empty results and zero counts. */
  lemma NoOperations(hexTerrain: map<string, string>)
    ensures Resolve(RedOperations([], [], []), BlueOperations([], []), hexTerrain, Draws([], []))
      == Ok(BootsResults([], [], [], [], [], OrderedMap([], map[]), 0, 0, 0, 0, []))
  {
    var draws := Draws([], []);
    assert draws.landings[..0] == [] && draws.landings[0..] == [];
    assert RedLandings([], [], hexTerrain, []) == Ok([]);
    assert AttackResults([], hexTerrain, []) == [];
    assert MovementResults([]) == [];
    assert UnitCasualties([], Empty()) == [];
  }

  /** As written, zero orders raise KeyError instead. */
  lemma NoOperationsAsWritten(hexTerrain: map<string, string>)
    ensures ResolveAsWritten(RedOperations([], [], []), BlueOperations([], []), hexTerrain, Draws([], []))
      == Err(KeyError("Success"))
  {
    var draws := Draws([], []);
    assert draws.landings[..0] == [] && draws.landings[0..] == [];
    assert RedLandings([], [], hexTerrain, []) == Ok([]);
  }

  /** The two resolutions agree whenever there is at least one landing and
      at least one attack; with no landing orders, a resolution that does not
      raise is a KeyError as written. */
  lemma AsWrittenAgreement(red: RedOperations, blue: BlueOperations, hexTerrain: map<string, string>, draws: Draws)
    requires ValidDrawsFor(red, draws)
    ensures |red.airborneLandings| + |red.airAssaultLandings| > 0 && |red.groundAttacks| > 0 ==>
      ResolveAsWritten(red, blue, hexTerrain, draws) == Resolve(red, blue, hexTerrain, draws)
    ensures red.airborneLandings == [] && red.airAssaultLandings == [] && Resolve(red, blue, hexTerrain, draws).Ok? ==>
      ResolveAsWritten(red, blue, hexTerrain, draws) == Err(KeyError("Success"))
  {
    var landings := RedLandings(red.airborneLandings, red.airAssaultLandings, hexTerrain, draws.landings);
    if landings.Ok? {
      RedLandingsPerOrder(red.airborneLandings, red.airAssaultLandings, hexTerrain, draws.landings, landings.value);
    }
  }
}
