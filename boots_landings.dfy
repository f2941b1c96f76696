/** Stage 1 of the BOOTS engine: Red airborne and air-assault landings.
    Every order yields one result row (airborne orders first); the random
    draws are parameters, one `random()` per order and, only when that
    landing fails, one `randint` for the battalions lost. */
module BootsLandings {
  import opened Common
  import opened BootsCore

  datatype OperationType = Airborne | AirAssault

  /** The `Operation_Type` label a row carries. */
  function OperationTypeName(kind: OperationType): string
  {
    match kind
    case Airborne => "Airborne"
    case AirAssault => "Air_Assault"
  }

  /** A landing request; a missing `bn_count` is its default 0. */
  datatype LandingOrder = LandingOrder(hex: Option<string>, bnCount: int, bnType: Option<string>)

  /** The draws one landing consumes: `roll` from `random()`, and `loss` from
      `randint(1, hi)`, which is drawn (and read) only when the landing fails. */
  datatype LandingDraw = LandingDraw(roll: real, loss: int)

  datatype LandingRow = LandingRow(
    operationType: OperationType,
    hex: Option<string>,
    bnType: string,
    bnsAttempted: int,
    bnsLanded: int,
    success: bool,
    terrain: string)

  /** The exclusive upper bound of the loss draw `randint(1, hi)`. */
  function LossBound(kind: OperationType, bnCount: int): (hi: int)
    ensures kind == AirAssault ==> hi >= 1
    ensures hi > 1 <==> bnCount >= (if kind == Airborne then 1 else 4)
    ensures kind == AirAssault && hi > 1 ==> 2 * hi <= bnCount
  {
    match kind
    case Airborne => bnCount + 1
    case AirAssault =>
      assert 2 * (bnCount / 2) <= bnCount;
      IntMax(1, bnCount / 2)  // Python's `//` floors; so does Dafny's `/` by 2
  }

  /** What the random source promises: `random()` lies in [0, 1) and
      `randint(1, hi)`, whenever its range is not empty, in [1, hi). */
  predicate ValidDraw(kind: OperationType, order: LandingOrder, draw: LandingDraw)
  {
    && 0.0 <= draw.roll < 1.0
    && (1 < LossBound(kind, order.bnCount) ==> 1 <= draw.loss < LossBound(kind, order.bnCount))
  }

  /** Probability of a successful landing: airborne 0.8 divided by the
      terrain modifier, air assault a flat 0.85. */
  function SuccessChance(kind: OperationType, terrainMod: real): (p: real)
    requires terrainMod > 0.0
    ensures p > 0.0
    ensures kind == AirAssault ==> p == 0.85
    ensures kind == Airborne ==> p * terrainMod == 0.8
    ensures kind == Airborne && terrainMod >= 0.8 ==> p <= 1.0
  {
    match kind
    case Airborne => 0.8 / terrainMod
    case AirAssault => 0.85
  }

  function DefaultBnType(kind: OperationType): string
  {
    match kind
    case Airborne => "Airborne"
    case AirAssault => "Air_Assault"
  }

  /** The row one landing order produces, or the ValueError numpy raises when
      the landing fails and the loss range is empty (no battalions for an
      airborne drop, fewer than four for an air assault). */
  function ResolveLanding(kind: OperationType, order: LandingOrder, hexTerrain: map<string, string>,
                          draw: LandingDraw): (r: Result<LandingRow, BootsError>)
    requires ValidDraw(kind, order, draw)
    ensures r.Err? ==> r.error == EmptyDrawRange
    ensures r.Err? <==>
      && draw.roll >= SuccessChance(kind, TerrainMod(TerrainAt(hexTerrain, order.hex)))
      && order.bnCount < (if kind == Airborne then 1 else 4)
    ensures r.Ok? ==>
      && r.value.operationType == kind
      && r.value.hex == order.hex
      && r.value.bnType == order.bnType.GetOr(DefaultBnType(kind))
      && r.value.bnsAttempted == order.bnCount
      && r.value.terrain == TerrainAt(hexTerrain, order.hex)
      && (r.value.success <==> draw.roll < SuccessChance(kind, TerrainMod(r.value.terrain)))
    ensures r.Ok? && r.value.success ==> r.value.bnsLanded == r.value.bnsAttempted
    ensures r.Ok? && !r.value.success && kind == Airborne ==>
      0 <= r.value.bnsLanded <= r.value.bnsAttempted - 1
    ensures r.Ok? && !r.value.success && kind == AirAssault ==>
      r.value.bnsAttempted - r.value.bnsAttempted / 2 < r.value.bnsLanded <= r.value.bnsAttempted - 1
    ensures r.Ok? && !r.value.success ==> r.value.bnsLanded == r.value.bnsAttempted - draw.loss
  {
    var terrain := TerrainAt(hexTerrain, order.hex);
    var success := draw.roll < SuccessChance(kind, TerrainMod(terrain));
    if !success && LossBound(kind, order.bnCount) <= 1 then Err(EmptyDrawRange)
    else
      var landed := if success then order.bnCount else IntMax(0, order.bnCount - draw.loss);
      Ok(LandingRow(kind, order.hex, order.bnType.GetOr(DefaultBnType(kind)), order.bnCount,
                    landed, success, terrain))
  }

  predicate ValidDraws(kind: OperationType, orders: seq<LandingOrder>, draws: seq<LandingDraw>)
  {
    |draws| == |orders| && forall i :: 0 <= i < |orders| ==> ValidDraw(kind, orders[i], draws[i])
  }

  /** The rows of one loop over orders of one kind, or its first exception. */
  function LandingRows(kind: OperationType, orders: seq<LandingOrder>, hexTerrain: map<string, string>,
                       draws: seq<LandingDraw>): (r: Result<seq<LandingRow>, BootsError>)
    requires ValidDraws(kind, orders, draws)
    ensures r.Ok? ==> |r.value| == |orders|
    ensures r.Err? ==> r.error == EmptyDrawRange
    decreases |orders|
  {
    if orders == [] then Ok([])
    else
      match ResolveLanding(kind, orders[0], hexTerrain, draws[0])
      case Err(e) => Err(e)
      case Ok(row) =>
        assert ValidDraws(kind, orders[1..], draws[1..]) by {
          forall i | 0 <= i < |orders[1..]| ensures ValidDraw(kind, orders[1..][i], draws[1..][i]) {
            assert orders[1..][i] == orders[i + 1] && draws[1..][i] == draws[i + 1];
          }
        }
        Prepend([row], LandingRows(kind, orders[1..], hexTerrain, draws[1..]))
  }

  /** Draws for all landings: the airborne orders' draws, then the air-assault ones'. */
  predicate ValidLandingDraws(airborne: seq<LandingOrder>, airAssault: seq<LandingOrder>,
                              draws: seq<LandingDraw>)
  {
    && |draws| == |airborne| + |airAssault|
    && ValidDraws(Airborne, airborne, draws[..|airborne|])
    && ValidDraws(AirAssault, airAssault, draws[|airborne|..])
  }

  /** Specification of `_process_red_landings`. */
  function RedLandings(airborne: seq<LandingOrder>, airAssault: seq<LandingOrder>,
                       hexTerrain: map<string, string>, draws: seq<LandingDraw>): (r: Result<seq<LandingRow>, BootsError>)
    requires ValidLandingDraws(airborne, airAssault, draws)
    ensures r.Ok? ==> |r.value| == |airborne| + |airAssault|
    ensures r.Err? ==> r.error == EmptyDrawRange
  {
    match LandingRows(Airborne, airborne, hexTerrain, draws[..|airborne|])
    case Err(e) => Err(e)
    case Ok(rows) => Prepend(rows, LandingRows(AirAssault, airAssault, hexTerrain, draws[|airborne|..]))
  }

  /** One of the two loops of `_process_red_landings`: one row per order of
      `kind`, stopping at the first exception. */
  method ResolveLandingsOfKind(kind: OperationType, orders: seq<LandingOrder>,
                               hexTerrain: map<string, string>, draws: seq<LandingDraw>)
    returns (r: Result<seq<LandingRow>, BootsError>)
    requires ValidDraws(kind, orders, draws)
    ensures r == LandingRows(kind, orders, hexTerrain, draws)
  {
    var landingData: seq<LandingRow> := [];
    var i := 0;
    assert orders[0..] == orders && draws[0..] == draws;
    PrependNil(LandingRows(kind, orders, hexTerrain, draws));
    while i < |orders|
      invariant 0 <= i <= |orders|
      invariant ValidDraws(kind, orders[i..], draws[i..])
      invariant LandingRows(kind, orders, hexTerrain, draws)
        == Prepend(landingData, LandingRows(kind, orders[i..], hexTerrain, draws[i..]))
    {
      LandingRowsStep(kind, orders, hexTerrain, draws, i);
      var row := ResolveLanding(kind, orders[i], hexTerrain, draws[i]);
      if row.Err? {
        return Err(row.error);
      }
      PrependAssoc(landingData, [row.value], LandingRows(kind, orders[i + 1..], hexTerrain, draws[i + 1..]));
      landingData := landingData + [row.value];
      i := i + 1;
    }
    assert orders[i..] == [];
    assert landingData + [] == landingData;
    r := Ok(landingData);
  }

  /** One loop iteration: the rows from order `i` on are order `i`'s row
      followed by the rows from order `i + 1` on. */
  lemma LandingRowsStep(kind: OperationType, orders: seq<LandingOrder>, hexTerrain: map<string, string>,
                        draws: seq<LandingDraw>, i: int)
    requires 0 <= i < |orders| && |draws| == |orders|
    requires ValidDraws(kind, orders[i..], draws[i..])
    ensures ValidDraw(kind, orders[i], draws[i])
    ensures ValidDraws(kind, orders[i + 1..], draws[i + 1..])
    ensures LandingRows(kind, orders[i..], hexTerrain, draws[i..]) ==
      match ResolveLanding(kind, orders[i], hexTerrain, draws[i])
      case Err(e) => Err(e)
      case Ok(row) => Prepend([row], LandingRows(kind, orders[i + 1..], hexTerrain, draws[i + 1..]))
  {
    assert orders[i..][0] == orders[i] && draws[i..][0] == draws[i];
    assert orders[i..][1..] == orders[i + 1..] && draws[i..][1..] == draws[i + 1..];
  }

  /** `_process_red_landings`: the airborne loop, then the air-assault loop. */
  method ProcessRedLandings(airborne: seq<LandingOrder>, airAssault: seq<LandingOrder>,
                            hexTerrain: map<string, string>, draws: seq<LandingDraw>)
    returns (r: Result<seq<LandingRow>, BootsError>)
    requires ValidLandingDraws(airborne, airAssault, draws)
    ensures r == RedLandings(airborne, airAssault, hexTerrain, draws)
  {
    var airborneRows := ResolveLandingsOfKind(Airborne, airborne, hexTerrain, draws[..|airborne|]);
    if airborneRows.Err? {
      return Err(airborneRows.error);
    }
    var airAssaultRows := ResolveLandingsOfKind(AirAssault, airAssault, hexTerrain, draws[|airborne|..]);
    r := Prepend(airborneRows.value, airAssaultRows);
  }

  // ---------------------------------------------------------------------
  // Properties of the landing stage
  // ---------------------------------------------------------------------

  /** One loop yields exactly one row per order, each the resolution of that
      order with its own draws, unless some order raised. */
  lemma LandingRowsPerOrder(kind: OperationType, orders: seq<LandingOrder>,
                            hexTerrain: map<string, string>, draws: seq<LandingDraw>)
    requires ValidDraws(kind, orders, draws)
    ensures LandingRows(kind, orders, hexTerrain, draws).Ok? <==>
      forall i :: 0 <= i < |orders| ==> ResolveLanding(kind, orders[i], hexTerrain, draws[i]).Ok?
    ensures LandingRows(kind, orders, hexTerrain, draws).Err? ==>
      LandingRows(kind, orders, hexTerrain, draws).error == EmptyDrawRange
    ensures LandingRows(kind, orders, hexTerrain, draws).Ok? ==>
      var rows := LandingRows(kind, orders, hexTerrain, draws).value;
      |rows| == |orders| &&
      forall i :: 0 <= i < |orders| ==> Ok(rows[i]) == ResolveLanding(kind, orders[i], hexTerrain, draws[i])
  {
    LandingRowsOk(kind, orders, hexTerrain, draws);
    if LandingRows(kind, orders, hexTerrain, draws).Ok? {
      LandingRowsPointwise(kind, orders, hexTerrain, draws);
    }
  }

  /** The tail of an order list and of its draws still match. */
  lemma TailDraws(kind: OperationType, orders: seq<LandingOrder>, hexTerrain: map<string, string>,
                  draws: seq<LandingDraw>)
    requires ValidDraws(kind, orders, draws) && orders != []
    ensures ValidDraws(kind, orders[1..], draws[1..])
    ensures forall i :: 0 <= i < |orders| - 1 ==>
      ResolveLanding(kind, orders[1..][i], hexTerrain, draws[1..][i])
        == ResolveLanding(kind, orders[i + 1], hexTerrain, draws[i + 1])
  {
    forall i | 0 <= i < |orders| - 1
      ensures orders[1..][i] == orders[i + 1] && draws[1..][i] == draws[i + 1]
    {
    }
  }

  lemma {:induction false} LandingRowsOk(kind: OperationType, orders: seq<LandingOrder>,
                                         hexTerrain: map<string, string>, draws: seq<LandingDraw>)
    requires ValidDraws(kind, orders, draws)
    ensures LandingRows(kind, orders, hexTerrain, draws).Ok? <==>
      forall i :: 0 <= i < |orders| ==> ResolveLanding(kind, orders[i], hexTerrain, draws[i]).Ok?
    decreases |orders|
  {
    if orders != [] {
      TailDraws(kind, orders, hexTerrain, draws);
      LandingRowsOk(kind, orders[1..], hexTerrain, draws[1..]);
      var first := ResolveLanding(kind, orders[0], hexTerrain, draws[0]);
      if first.Ok? {
        assert LandingRows(kind, orders, hexTerrain, draws).Ok?
          <==> LandingRows(kind, orders[1..], hexTerrain, draws[1..]).Ok?;
        if !LandingRows(kind, orders, hexTerrain, draws).Ok? {
          var k :| 0 <= k < |orders| - 1 && ResolveLanding(kind, orders[1..][k], hexTerrain, draws[1..][k]).Err?;
          assert ResolveLanding(kind, orders[k + 1], hexTerrain, draws[k + 1]).Err?;
        }
      }
    }
  }

  lemma {:induction false} LandingRowsPointwise(kind: OperationType, orders: seq<LandingOrder>,
                                                hexTerrain: map<string, string>, draws: seq<LandingDraw>)
    requires ValidDraws(kind, orders, draws)
    requires LandingRows(kind, orders, hexTerrain, draws).Ok?
    ensures var rows := LandingRows(kind, orders, hexTerrain, draws).value;
      forall i :: 0 <= i < |orders| ==> Ok(rows[i]) == ResolveLanding(kind, orders[i], hexTerrain, draws[i])
    decreases |orders|
  {
    if orders != [] {
      TailDraws(kind, orders, hexTerrain, draws);
      var first := ResolveLanding(kind, orders[0], hexTerrain, draws[0]);
      var rest := LandingRows(kind, orders[1..], hexTerrain, draws[1..]);
      assert first.Ok? && rest.Ok?;
      LandingRowsPointwise(kind, orders[1..], hexTerrain, draws[1..]);
      var rows := LandingRows(kind, orders, hexTerrain, draws).value;
      assert rows == [first.value] + rest.value;
      forall i | 0 <= i < |orders|
        ensures Ok(rows[i]) == ResolveLanding(kind, orders[i], hexTerrain, draws[i])
      {
        if i > 0 {
          assert rows[i] == rest.value[i - 1];
        }
      }
    }
  }

  /** `_process_red_landings` raises only when some failed landing has an
      empty loss range, and then raises numpy's ValueError. */
  lemma RedLandingsRaise(airborne: seq<LandingOrder>, airAssault: seq<LandingOrder>,
                         hexTerrain: map<string, string>, draws: seq<LandingDraw>)
    requires ValidLandingDraws(airborne, airAssault, draws)
    ensures RedLandings(airborne, airAssault, hexTerrain, draws).Ok? <==>
      && (forall i :: 0 <= i < |airborne| ==> ResolveLanding(Airborne, airborne[i], hexTerrain, draws[i]).Ok?)
      && (forall i :: 0 <= i < |airAssault| ==>
            ResolveLanding(AirAssault, airAssault[i], hexTerrain, draws[|airborne| + i]).Ok?)
    ensures RedLandings(airborne, airAssault, hexTerrain, draws).Err? ==>
      RedLandings(airborne, airAssault, hexTerrain, draws).error == EmptyDrawRange
  {
    var n := |airborne|;
    LandingRowsPerOrder(Airborne, airborne, hexTerrain, draws[..n]);
    LandingRowsPerOrder(AirAssault, airAssault, hexTerrain, draws[n..]);
    forall i | 0 <= i < n
      ensures ResolveLanding(Airborne, airborne[i], hexTerrain, draws[..n][i])
           == ResolveLanding(Airborne, airborne[i], hexTerrain, draws[i])
    {
      assert draws[..n][i] == draws[i];
    }
    forall i | 0 <= i < |airAssault|
      ensures ResolveLanding(AirAssault, airAssault[i], hexTerrain, draws[n..][i])
           == ResolveLanding(AirAssault, airAssault[i], hexTerrain, draws[n + i])
    {
      assert draws[n..][i] == draws[n + i];
    }
  }

  /** `_process_red_landings` yields one row per order, the airborne orders'
      rows first, each the resolution of its order, with battalions landed
      never above battalions attempted. */
  lemma RedLandingsPerOrder(airborne: seq<LandingOrder>, airAssault: seq<LandingOrder>,
                            hexTerrain: map<string, string>, draws: seq<LandingDraw>, rows: seq<LandingRow>)
    requires ValidLandingDraws(airborne, airAssault, draws)
    requires RedLandings(airborne, airAssault, hexTerrain, draws) == Ok(rows)
    ensures |rows| == |airborne| + |airAssault|
    ensures forall i :: 0 <= i < |airborne| ==>
      Ok(rows[i]) == ResolveLanding(Airborne, airborne[i], hexTerrain, draws[i])
    ensures forall i :: 0 <= i < |airAssault| ==>
      Ok(rows[|airborne| + i]) == ResolveLanding(AirAssault, airAssault[i], hexTerrain, draws[|airborne| + i])
    ensures forall i :: 0 <= i < |rows| ==> rows[i].bnsLanded <= rows[i].bnsAttempted
    ensures forall i :: 0 <= i < |rows| ==> (rows[i].operationType == Airborne <==> i < |airborne|)
  {
    var n := |airborne|;
    var a := LandingRows(Airborne, airborne, hexTerrain, draws[..n]);
    var b := LandingRows(AirAssault, airAssault, hexTerrain, draws[n..]);
    assert a.Ok? && b.Ok? && rows == a.value + b.value;
    assert rows[0..0 + n] == a.value;
    assert rows[n..n + |airAssault|] == b.value;
    KindRowsAt(Airborne, airborne, hexTerrain, draws[..n], rows, 0);
    KindRowsAt(AirAssault, airAssault, hexTerrain, draws[n..], rows, n);
    forall i | 0 <= i < n
      ensures Ok(rows[i]) == ResolveLanding(Airborne, airborne[i], hexTerrain, draws[i])
    {
      assert draws[..n][i] == draws[i];
      assert rows[0 + i] == rows[i];
    }
    forall i | 0 <= i < |airAssault|
      ensures Ok(rows[n + i]) == ResolveLanding(AirAssault, airAssault[i], hexTerrain, draws[n + i])
    {
      assert draws[n..][i] == draws[n + i];
    }
  }

  /** The rows one loop contributes at `offset` of the stage's rows. */
  lemma KindRowsAt(kind: OperationType, orders: seq<LandingOrder>, hexTerrain: map<string, string>,
                   draws: seq<LandingDraw>, rows: seq<LandingRow>, offset: nat)
    requires ValidDraws(kind, orders, draws)
    requires LandingRows(kind, orders, hexTerrain, draws).Ok?
    requires offset + |orders| <= |rows|
    requires rows[offset..offset + |orders|] == LandingRows(kind, orders, hexTerrain, draws).value
    ensures forall i :: 0 <= i < |orders| ==>
      Ok(rows[offset + i]) == ResolveLanding(kind, orders[i], hexTerrain, draws[i])
    ensures forall i :: offset <= i < offset + |orders| ==>
      rows[i].bnsLanded <= rows[i].bnsAttempted && rows[i].operationType == kind
  {
    var part := rows[offset..offset + |orders|];
    LandingRowsPerOrder(kind, orders, hexTerrain, draws);
    forall i | 0 <= i < |orders|
      ensures Ok(rows[offset + i]) == ResolveLanding(kind, orders[i], hexTerrain, draws[i])
    {
      assert part[i] == rows[offset + i];
    }
    forall i | offset <= i < offset + |orders|
      ensures rows[i].bnsLanded <= rows[i].bnsAttempted && rows[i].operationType == kind
    {
      assert part[i - offset] == rows[i];
      RowShape(kind, orders[i - offset], hexTerrain, draws[i - offset], rows[i]);
    }
  }

  /** A row of `kind` never lands more battalions than it attempted. */
  lemma RowShape(kind: OperationType, order: LandingOrder, hexTerrain: map<string, string>, draw: LandingDraw,
                 row: LandingRow)
    requires ValidDraw(kind, order, draw)
    requires Ok(row) == ResolveLanding(kind, order, hexTerrain, draw)
    ensures row.bnsLanded <= row.bnsAttempted && row.operationType == kind
  {
  }

  /** An air assault's success and the battalions it lands do not depend on
      the terrain of its hex, which is only recorded. */
  lemma AirAssaultIgnoresTerrain(order: LandingOrder, hexTerrain1: map<string, string>,
                                 hexTerrain2: map<string, string>, draw: LandingDraw)
    requires ValidDraw(AirAssault, order, draw)
    ensures ResolveLanding(AirAssault, order, hexTerrain1, draw).Ok? == ResolveLanding(AirAssault, order, hexTerrain2, draw).Ok?
    ensures ResolveLanding(AirAssault, order, hexTerrain1, draw).Ok? ==>
      var row1 := ResolveLanding(AirAssault, order, hexTerrain1, draw).value;
      var row2 := ResolveLanding(AirAssault, order, hexTerrain2, draw).value;
      row1.success == row2.success && row1.bnsLanded == row2.bnsLanded
  {
  }

  /** Although the source's comment calls airborne drops better in difficult
      terrain, dividing by the modifier makes them worse: a drop that succeeds
      on a hex with the larger modifier also succeeds, with the same draw, on
      a hex with the smaller one. */
  lemma AirborneRougherTerrainIsHarder(order1: LandingOrder, order2: LandingOrder,
                                       hexTerrain: map<string, string>, draw: LandingDraw)
    requires order1.bnCount == order2.bnCount
    requires ValidDraw(Airborne, order1, draw) && ValidDraw(Airborne, order2, draw)
    requires TerrainMod(TerrainAt(hexTerrain, order1.hex)) <= TerrainMod(TerrainAt(hexTerrain, order2.hex))
    requires ResolveLanding(Airborne, order2, hexTerrain, draw).Ok?
    requires ResolveLanding(Airborne, order2, hexTerrain, draw).value.success
    ensures ResolveLanding(Airborne, order1, hexTerrain, draw).Ok?
    ensures ResolveLanding(Airborne, order1, hexTerrain, draw).value.success
  {
    DivAntitone(0.8, TerrainMod(TerrainAt(hexTerrain, order1.hex)), TerrainMod(TerrainAt(hexTerrain, order2.hex)));
  }

  /** A drop of four battalions on a mountain hex (modifier 1.8) with a draw
      below 0.8 / 1.8 succeeds and lands all four. */
  lemma MountainDropScenario(roll: real)
    requires 0.0 <= roll < 0.8 / 1.8
    ensures ResolveLanding(Airborne, LandingOrder(Some("A1"), 4, None), map["A1" := "mountain"], LandingDraw(roll, 1))
      == Ok(LandingRow(Airborne, Some("A1"), "Airborne", 4, 4, true, "mountain"))
  {
  }

  lemma DivAntitone(a: real, m1: real, m2: real)
    requires 0.0 <= a && 0.0 < m1 <= m2
    ensures a / m2 <= a / m1
  {
    assert a / m2 == (a / m1) * (m1 / m2);
    assert m1 / m2 <= 1.0;
  }
}
