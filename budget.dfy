/** The budget check against the selected care level's cap, and the tiered
    out-of-pocket cost: units up to the cap are paid at the co-pay ratio,
    units beyond it at the full unit price. */
module Budget {
  import opened Catalog
  import opened Schedule
  import opened Aggregate

  /** Yen per unit. */
  const UnitPrice: nat := 10

  /** The co-pay ratio 0.1, kept exact as CoPayNumerator / CoPayDenominator. */
  const CoPayNumerator: nat := 1
  const CoPayDenominator: nat := 10

  /** The plan uses more units than the level reimburses. */
  predicate IsOverLimit(total: nat, level: CareLevel) {
    total > level.maxUnits
  }

  /** Out-of-pocket cost in whole yen, rounded down. Within the cap it is the
      co-pay share of the units' price, which at ten yen a unit and a ratio
      of one tenth is one yen per unit; over the cap, the capped units are
      paid at the co-pay share and every further unit at the full price. */
  function Cost(total: nat, level: CareLevel): (r: nat)
    ensures !IsOverLimit(total, level) ==> r == total
    ensures IsOverLimit(total, level) ==> r == level.maxUnits + UnitPrice * (total - level.maxUnits)
  {
    if IsOverLimit(total, level) then
      var coveredUnits := level.maxUnits;
      var overUnits := total - level.maxUnits;
      (coveredUnits * UnitPrice * CoPayNumerator + overUnits * UnitPrice * CoPayDenominator) / CoPayDenominator
    else
      (total * UnitPrice * CoPayNumerator) / CoPayDenominator
  }

  /** The two tiers meet at the cap: the cost of exactly the cap is what the
      over-limit rule gives with no units over, so there is no jump. */
  lemma CostContinuousAtCap(level: CareLevel)
    ensures Cost(level.maxUnits, level) == (level.maxUnits * UnitPrice * CoPayNumerator) / CoPayDenominator
    ensures Cost(level.maxUnits, level) ==
      (level.maxUnits * UnitPrice * CoPayNumerator + 0 * UnitPrice * CoPayDenominator) / CoPayDenominator
    ensures Cost(level.maxUnits + 1, level) == Cost(level.maxUnits, level) + UnitPrice
  {
  }

  /** More units never cost less. */
  lemma CostMonotone(t1: nat, t2: nat, level: CareLevel)
    requires t1 <= t2
    ensures Cost(t1, level) <= Cost(t2, level)
  {
  }

  /** A plan is over its limit exactly when its cost exceeds the one yen per
      unit it would cost under the cap. */
  lemma OverLimitIffSurcharge(total: nat, level: CareLevel)
    ensures IsOverLimit(total, level) <==> Cost(total, level) > total
  {
  }

  /** Adding a service never brings an over-limit plan back under its cap,
      and never lowers the cost. */
  lemma AddedKeepsOverLimit(p: Plan, slot: Slot, svc: Service, token: nat, level: CareLevel)
    requires Complete(p)
    ensures IsOverLimit(TotalMonthlyUnits(p), level) ==>
      IsOverLimit(TotalMonthlyUnits(Added(p, slot, svc, token)), level)
    ensures Cost(TotalMonthlyUnits(p), level) <= Cost(TotalMonthlyUnits(Added(p, slot, svc, token)), level)
  {
    AddedTotal(p, slot, svc, token);
    CostMonotone(TotalMonthlyUnits(p), TotalMonthlyUnits(Added(p, slot, svc, token)), level);
  }

  /** Removing a card never pushes a plan over its cap, and never raises the
      cost. */
  lemma RemovedKeepsWithinLimit(p: Plan, slot: Slot, id: nat, level: CareLevel)
    requires Complete(p)
    ensures !IsOverLimit(TotalMonthlyUnits(p), level) ==>
      !IsOverLimit(TotalMonthlyUnits(Removed(p, slot, id)), level)
    ensures Cost(TotalMonthlyUnits(Removed(p, slot, id)), level) <= Cost(TotalMonthlyUnits(p), level)
  {
    RemovedTotal(p, slot, id);
    CostMonotone(TotalMonthlyUnits(Removed(p, slot, id)), TotalMonthlyUnits(p), level);
  }
}
