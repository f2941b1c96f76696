/** Stage 3 of the BOOTS engine: Blue maneuver movements between troop
    organisations (TOs). The only rule is that TO 3 and TO 4 cannot move to
    each other; every order yields one row that copies the order. */
module BootsMovements {
  import opened Common

  /** A movement order; a missing `unit_count` is its default 0. */
  datatype MovementOrder = MovementOrder(
    unitId: Option<string>,
    unitType: Option<string>,
    unitCount: int,
    fromTO: Option<int>,
    toTO: Option<int>)

  datatype MovementRow = MovementRow(
    unitId: Option<string>,
    unitType: Option<string>,
    unitCount: int,
    fromTO: Option<int>,
    toTO: Option<int>,
    success: bool,
    reason: string)

  /** `_check_movement_restrictions`: a move is refused exactly when its two
      ends are TO 3 and TO 4, in either order; so the rule is symmetric and
      a move that stays within one TO is always allowed. */
  function CanMove(fromTO: Option<int>, toTO: Option<int>): (ok: bool)
    ensures !ok <==> {fromTO, toTO} == {Some(3), Some(4)}
    ensures fromTO == toTO ==> ok
  {
    if (fromTO == Some(3) && toTO == Some(4)) || (fromTO == Some(4) && toTO == Some(3)) then false
    else true
  }

  lemma CanMoveSymmetric(a: Option<int>, b: Option<int>)
    ensures CanMove(a, b) == CanMove(b, a)
  {
    assert {a, b} == {b, a};
  }

  /** Three sample moves: 3 to 4 and 4 to 3 are refused, 1 to 2 is allowed. */
  lemma MovementExamples()
    ensures !CanMove(Some(3), Some(4)) && !CanMove(Some(4), Some(3)) && CanMove(Some(1), Some(2))
  {
  }

  const MovementCompleted := "Movement completed"
  const MovementRestricted := "Movement restricted"

  /** `_process_blue_movements`: one row per order copying its fields, with
      the verdict of `CanMove` on its two TOs and the matching reason; the
      verdict depends on nothing else in the order. */
  method ProcessBlueMovements(movements: seq<MovementOrder>) returns (movementData: seq<MovementRow>)
    ensures |movementData| == |movements|
    ensures forall i :: 0 <= i < |movements| ==>
      var m := movements[i];
      var row := movementData[i];
      && row.unitId == m.unitId && row.unitType == m.unitType && row.unitCount == m.unitCount
      && row.fromTO == m.fromTO && row.toTO == m.toTO
      && row.success == CanMove(m.fromTO, m.toTO)
      && row.reason == (if row.success then MovementCompleted else MovementRestricted)
    ensures forall i, j ::
      (0 <= i < |movements| && 0 <= j < |movements| &&
       movements[i].fromTO == movements[j].fromTO && movements[i].toTO == movements[j].toTO) ==>
      movementData[i].success == movementData[j].success
  {
    movementData := [];
    for i := 0 to |movements|
      invariant |movementData| == i
      invariant forall k :: 0 <= k < i ==>
        var m := movements[k];
        var row := movementData[k];
        && row.unitId == m.unitId && row.unitType == m.unitType && row.unitCount == m.unitCount
        && row.fromTO == m.fromTO && row.toTO == m.toTO
        && row.success == CanMove(m.fromTO, m.toTO)
        && row.reason == (if row.success then MovementCompleted else MovementRestricted)
    {
      var movement := movements[i];
      var canMove := CanMove(movement.fromTO, movement.toTO);
      if canMove {
        movementData := movementData + [MovementRow(movement.unitId, movement.unitType, movement.unitCount,
                                                    movement.fromTO, movement.toTO, true, MovementCompleted)];
      } else {
        movementData := movementData + [MovementRow(movement.unitId, movement.unitType, movement.unitCount,
                                                    movement.fromTO, movement.toTO, false, MovementRestricted)];
      }
    }
  }
}
