/** Stage 4 of the BOOTS engine: Blue fire-support plans. Each plan's
    supporting units give a fire strength (artillery types count half again),
    the strength gives an effectiveness percentage capped at 90 and then, by
    target type, at 95; the percentages are collected in a dictionary keyed
    by plan id. */
module BootsFireSupport {
  import opened Common
  import opened OrderedMaps
  import opened BootsCore

  /** A fire-support plan; a missing `supporting_units` is the empty list. */
  datatype FireSupportPlan = FireSupportPlan(
    planId: Option<string>,
    supportingUnits: seq<UnitEntry>,
    targetHex: Option<string>,
    targetType: Option<string>)

  /** `plan.get('plan_id', 'unknown')` */
  function PlanId(plan: FireSupportPlan): (id: string)
    ensures plan.planId.Some? ==> id == plan.planId.value
    ensures plan.planId.None? ==> id == "unknown"
  {
    plan.planId.GetOr("unknown")
  }

  /** A unit type whose name contains "Arty" is artillery. */
  predicate IsArtillery(unitType: string)
    ensures IsArtillery(unitType) <==> exists i :: OccursAt(unitType, "Arty", i)
    ensures IsArtillery(unitType) ==> |unitType| >= 4
  {
    ContainsIff(unitType, "Arty");
    Contains(unitType, "Arty")
  }

  /** One supporting unit's contribution; the membership test on a missing
      type raises. */
  function FireEntryStrength(entry: UnitEntry): (r: Result<real, BootsError>)
    ensures r.Err? <==> entry.unitType.None?
    ensures r.Err? ==> r.error == ArtyInNone
  {
    match entry.unitType
    case None => Err(ArtyInNone)
    case Some(t) =>
      if IsArtillery(t) then Ok(EntryStrength(entry) * 1.5) else Ok(EntryStrength(entry))
  }

  /** The fire strength of a plan's supporting units, accumulated left to
      right. It fails exactly when some unit has no type; otherwise, with
      non-negative counts, it lies between the units' plain combat strength
      and one and a half times it. */
  function FireStrength(units: seq<UnitEntry>): (r: Result<real, BootsError>)
    ensures r.Err? <==> exists i :: 0 <= i < |units| && units[i].unitType.None?
    ensures r.Err? ==> r.error == ArtyInNone
    ensures r.Ok? && NonNegativeCounts(units) ==> ForceStrength(units) <= r.value <= 1.5 * ForceStrength(units)
    decreases |units|
  {
    if units == [] then Ok(0.0)
    else
      var prefix := units[..|units| - 1];
      var last := units[|units| - 1];
      assert forall i :: 0 <= i < |prefix| ==> prefix[i] == units[i];
      assert NonNegativeCounts(units) ==> NonNegativeCounts(prefix);
      match FireStrength(prefix)
      case Err(e) => Err(e)
      case Ok(s) =>
        match FireEntryStrength(last)
        case Err(e) => Err(e)
        case Ok(x) => Ok(s + x)
  }

  /** Without artillery, fire strength is exactly the combat strength. */
  lemma {:induction false} FireStrengthWithoutArtillery(units: seq<UnitEntry>)
    requires forall i :: 0 <= i < |units| ==> units[i].unitType.Some? && !IsArtillery(units[i].unitType.value)
    ensures FireStrength(units) == Ok(ForceStrength(units))
    decreases |units|
  {
    if units != [] {
      var prefix := units[..|units| - 1];
      assert forall i :: 0 <= i < |prefix| ==> prefix[i] == units[i];
      FireStrengthWithoutArtillery(prefix);
    }
  }

  /** With artillery only, fire strength is one and a half combat strengths. */
  lemma {:induction false} FireStrengthAllArtillery(units: seq<UnitEntry>)
    requires forall i :: 0 <= i < |units| ==> units[i].unitType.Some? && IsArtillery(units[i].unitType.value)
    ensures FireStrength(units) == Ok(1.5 * ForceStrength(units))
    decreases |units|
  {
    if units != [] {
      var prefix := units[..|units| - 1];
      assert forall i :: 0 <= i < |prefix| ==> prefix[i] == units[i];
      FireStrengthAllArtillery(prefix);
    }
  }

  /** The inner loop of `_process_blue_fire_support`, stopping at the first
      unit without a type. */
  method SumFireStrength(units: seq<UnitEntry>) returns (r: Result<real, BootsError>)
    ensures r == FireStrength(units)
  {
    var fsStrength := 0.0;
    var i := 0;
    while i < |units|
      invariant 0 <= i <= |units|
      invariant FireStrength(units[..i]) == Ok(fsStrength)
    {
      var unitInfo := units[i];
      if unitInfo.unitType.None? {
        assert units[i].unitType.None?;
        return Err(ArtyInNone);
      }
      FireStrengthStep(units, i, fsStrength);
      if IsArtillery(unitInfo.unitType.value) {
        fsStrength := fsStrength + EntryStrength(unitInfo) * 1.5;
      } else {
        fsStrength := fsStrength + EntryStrength(unitInfo);
      }
      i := i + 1;
    }
    assert units[..i] == units;
    r := Ok(fsStrength);
  }

  /** One more typed unit adds its contribution to the fire strength. */
  lemma FireStrengthStep(units: seq<UnitEntry>, i: int, s: real)
    requires 0 <= i < |units| && units[i].unitType.Some?
    requires FireStrength(units[..i]) == Ok(s)
    ensures FireStrength(units[..i + 1]) == Ok(s + FireEntryStrength(units[i]).value)
  {
    var u := units[..i + 1];
    assert u[..|u| - 1] == units[..i] && u[|u| - 1] == units[i];
  }

  /** The effectiveness percentage of a fire strength against a target type:
      never above 95, above 90 only against artillery, where 1.2 applies,
      not negative for a non-negative strength, and at its type's ceiling
      once the strength reaches 9 (the 90 cap). */
  function Effectiveness(targetType: Option<string>, fsStrength: real): (e: real)
    ensures e <= 95.0
    ensures e > 90.0 ==> targetType == Some("Artillery")
    ensures fsStrength >= 0.0 ==> e >= 0.0
    ensures fsStrength >= 9.0 ==>
      e == (if targetType == Some("Maneuver") then 90.0
            else if targetType == Some("Artillery") then 95.0
            else if targetType == Some("Infrastructure") then 54.0
            else 72.0)
  {
    var baseEffectiveness := RealMin(fsStrength * 10.0, 90.0);
    var targetEffectiveness :=
      if targetType == Some("Maneuver") then baseEffectiveness * 1.0
      else if targetType == Some("Artillery") then baseEffectiveness * 1.2
      else if targetType == Some("Chokepoints") then baseEffectiveness * 0.8
      else if targetType == Some("Infrastructure") then baseEffectiveness * 0.6
      else baseEffectiveness * 0.8;
    RealMin(targetEffectiveness, 95.0)
  }

  /** More fire strength never lowers effectiveness. */
  lemma EffectivenessMonotone(targetType: Option<string>, s1: real, s2: real)
    requires s1 <= s2
    ensures Effectiveness(targetType, s1) <= Effectiveness(targetType, s2)
  {
  }

  /** The effectiveness one plan contributes, or the exception it raises. */
  function PlanValue(plan: FireSupportPlan): (r: Result<real, BootsError>)
    ensures r.Err? <==> FireStrength(plan.supportingUnits).Err?
    ensures r.Ok? ==> r.value == Effectiveness(plan.targetType, FireStrength(plan.supportingUnits).value)
  {
    match FireStrength(plan.supportingUnits)
    case Err(e) => Err(e)
    case Ok(s) => Ok(Effectiveness(plan.targetType, s))
  }

  /** `_process_blue_fire_support` as a fold: each plan assigns its value to
      its id, so a repeated id takes the later value. Its only exception is
      the membership test's. */
  function AllPlanEffectiveness(plans: seq<FireSupportPlan>): (r: Result<OrderedMap<string, real>, BootsError>)
    ensures r.Ok? ==> Valid(r.value) && |r.value.keys| <= |plans|
    ensures r.Err? ==> r.error == ArtyInNone
    decreases |plans|
  {
    if plans == [] then Ok(Empty())
    else
      var prefix := plans[..|plans| - 1];
      var last := plans[|plans| - 1];
      match AllPlanEffectiveness(prefix)
      case Err(e) => Err(e)
      case Ok(d) =>
        match PlanValue(last)
        case Err(e) => Err(e)
        case Ok(v) => Ok(Put(d, PlanId(last), v))
  }

  /** `_process_blue_fire_support`. */
  method ProcessBlueFireSupport(plans: seq<FireSupportPlan>) returns (r: Result<OrderedMap<string, real>, BootsError>)
    ensures r == AllPlanEffectiveness(plans)
  {
    var effectiveness: OrderedMap<string, real> := Empty();
    var i := 0;
    while i < |plans|
      invariant 0 <= i <= |plans|
      invariant AllPlanEffectiveness(plans[..i]) == Ok(effectiveness)
    {
      assert plans[..i + 1][..i] == plans[..i];
      var plan := plans[i];
      var fsStrength := SumFireStrength(plan.supportingUnits);
      if fsStrength.Err? {
        AllPlanEffectivenessRaises(plans);
        assert PlanValue(plans[i]).Err?;
        return Err(ArtyInNone);
      }
      effectiveness := Put(effectiveness, PlanId(plan), Effectiveness(plan.targetType, fsStrength.value));
      i := i + 1;
    }
    assert plans[..i] == plans;
    r := Ok(effectiveness);
  }

  /** The fire-support stage fails exactly when some plan fails. */
  lemma {:induction false} AllPlanEffectivenessRaises(plans: seq<FireSupportPlan>)
    ensures AllPlanEffectiveness(plans).Err? <==> exists i :: 0 <= i < |plans| && PlanValue(plans[i]).Err?
    decreases |plans|
  {
    if plans != [] {
      var prefix := plans[..|plans| - 1];
      var last := plans[|plans| - 1];
      AllPlanEffectivenessRaises(prefix);
      if AllPlanEffectiveness(prefix).Err? {
        var i :| 0 <= i < |prefix| && PlanValue(prefix[i]).Err?;
        assert prefix[i] == plans[i];
      } else if PlanValue(last).Ok? {
        forall i | 0 <= i < |plans|
          ensures PlanValue(plans[i]).Ok?
        {
          if i < |prefix| {
            assert prefix[i] == plans[i];
          }
        }
      }
    }
  }

  /** Every plan succeeds and its id is a key of the dictionary. */
  lemma {:induction false} PlanIdsRecorded(plans: seq<FireSupportPlan>)
    requires AllPlanEffectiveness(plans).Ok?
    ensures forall i :: 0 <= i < |plans| ==>
      PlanValue(plans[i]).Ok? && PlanId(plans[i]) in AllPlanEffectiveness(plans).value.entries
    decreases |plans|
  {
    if plans != [] {
      var prefix := plans[..|plans| - 1];
      assert forall i :: 0 <= i < |prefix| ==> prefix[i] == plans[i];
      PlanIdsRecorded(prefix);
    }
  }

  /** Every key of the dictionary is the id of some plan. */
  lemma {:induction false} KeysArePlanIds(plans: seq<FireSupportPlan>)
    requires AllPlanEffectiveness(plans).Ok?
    ensures forall k :: k in AllPlanEffectiveness(plans).value.entries ==>
      exists i :: 0 <= i < |plans| && PlanId(plans[i]) == k
    decreases |plans|
  {
    if plans != [] {
      var prefix := plans[..|plans| - 1];
      var last := plans[|plans| - 1];
      KeysArePlanIds(prefix);
      var d := AllPlanEffectiveness(plans).value;
      var d0 := AllPlanEffectiveness(prefix).value;
      assert d.entries.Keys == d0.entries.Keys + {PlanId(last)};
      forall k | k in d.entries
        ensures exists i :: 0 <= i < |plans| && PlanId(plans[i]) == k
      {
        if k == PlanId(last) {
          assert PlanId(plans[|plans| - 1]) == k;
        } else {
          var i :| 0 <= i < |prefix| && PlanId(prefix[i]) == k;
          assert prefix[i] == plans[i];
        }
      }
    }
  }

  /** A plan whose id no later plan repeats leaves its own value in the
      dictionary: for a repeated id, the last plan wins. */
  lemma {:induction false} LastPlanWins(plans: seq<FireSupportPlan>, i: int)
    requires AllPlanEffectiveness(plans).Ok?
    requires 0 <= i < |plans|
    requires forall j :: i < j < |plans| ==> PlanId(plans[j]) != PlanId(plans[i])
    ensures PlanValue(plans[i]).Ok? && PlanId(plans[i]) in AllPlanEffectiveness(plans).value.entries
    ensures AllPlanEffectiveness(plans).value.entries[PlanId(plans[i])] == PlanValue(plans[i]).value
    decreases |plans|
  {
    var prefix := plans[..|plans| - 1];
    var last := plans[|plans| - 1];
    var d := AllPlanEffectiveness(plans).value;
    var d0 := AllPlanEffectiveness(prefix).value;
    assert d.entries == d0.entries[PlanId(last) := PlanValue(last).value];
    if i < |plans| - 1 {
      assert prefix[i] == plans[i];
      assert forall j :: i < j < |prefix| ==> prefix[j] == plans[j];
      LastPlanWins(prefix, i);
      assert PlanId(last) != PlanId(plans[i]);
    }
  }

  /** Every recorded effectiveness is at most 95, and not negative when the
      plans' unit counts are not. */
  lemma PlanEffectivenessBounds(plans: seq<FireSupportPlan>)
    requires AllPlanEffectiveness(plans).Ok?
    ensures forall k :: k in AllPlanEffectiveness(plans).value.entries ==> AllPlanEffectiveness(plans).value.entries[k] <= 95.0
    ensures (forall i :: 0 <= i < |plans| ==> NonNegativeCounts(plans[i].supportingUnits)) ==>
      forall k :: k in AllPlanEffectiveness(plans).value.entries ==> AllPlanEffectiveness(plans).value.entries[k] >= 0.0
  {
    var d := AllPlanEffectiveness(plans).value;
    KeysArePlanIds(plans);
    forall k | k in d.entries
      ensures d.entries[k] <= 95.0
      ensures (forall i :: 0 <= i < |plans| ==> NonNegativeCounts(plans[i].supportingUnits)) ==> d.entries[k] >= 0.0
    {
      var i := LastWithId(plans, k);
      LastPlanWins(plans, i);
      if forall j :: 0 <= j < |plans| ==> NonNegativeCounts(plans[j].supportingUnits) {
        assert NonNegativeCounts(plans[i].supportingUnits);
        ForceStrengthNonNegative(plans[i].supportingUnits);
      }
    }
  }

  /** The index of the last plan whose id is `k`. */
  lemma LastWithId(plans: seq<FireSupportPlan>, k: string) returns (i: int)
    requires exists i :: 0 <= i < |plans| && PlanId(plans[i]) == k
    ensures 0 <= i < |plans| && PlanId(plans[i]) == k
    ensures forall j :: i < j < |plans| ==> PlanId(plans[j]) != k
  {
    var i0 :| 0 <= i0 < |plans| && PlanId(plans[i0]) == k;
    i := i0;
    var j := i0 + 1;
    while j < |plans|
      invariant i0 <= i < j <= |plans|
      invariant PlanId(plans[i]) == k
      invariant forall m :: i < m < j ==> PlanId(plans[m]) != k
    {
      if PlanId(plans[j]) == k {
        i := j;
      }
      j := j + 1;
    }
  }

  lemma ForceStrengthNonNegative(units: seq<UnitEntry>)
    requires NonNegativeCounts(units)
    ensures ForceStrength(units) >= 0.0
  {
  }

  /** Two towed-artillery battalions on an artillery target: strength
      2 * 0.8 * 1.5 = 2.4, effectiveness min(24, 90) * 1.2 = 28.8. */
  lemma ArtilleryPlanScenario()
    ensures PlanValue(FireSupportPlan(Some("FS1"), [UnitEntry(Some("Towed_Arty"), 2)], Some("0101"), Some("Artillery")))
            == Ok(28.8)
  {
    ContainsIff("Towed_Arty", "Arty");
    assert OccursAt("Towed_Arty", "Arty", 6);
    var units := [UnitEntry(Some("Towed_Arty"), 2)];
    assert units[..0] == [];
    assert FireStrength(units) == Ok(2.4);
  }
}
