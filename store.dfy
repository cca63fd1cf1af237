/** The plan store: the calculator's mutable state (the selected care level,
    the weekly plan and the source of fresh card tokens) and the operations
    that change it in place, each proved against the plan-value functions of
    module Schedule. */
module Store {
  import opened Catalog
  import opened Schedule
  import opened Aggregate

  class CarePlan {
    var selectedLevel: CareLevel
    var plan: Plan
    /** The next card token to hand out; stands in for the clock reading the
        source uses as a card id. */
    var nextToken: nat

    /** Every slot has a bucket, tokens are fresh and unique, and no rental is
        listed twice in the monthly bucket. */
    ghost predicate Valid()
      reads this
    {
      Invariant(plan, nextToken)
    }

    /** The calculator opens on level 3 with all buckets empty. */
    constructor ()
      ensures Valid()
      ensures selectedLevel == DefaultLevel && plan == EmptyPlan()
    {
      selectedLevel := DefaultLevel;
      plan := EmptyPlan();
      nextToken := 0;
      EmptyPlanInvariant(0);
    }

    /** Choose another care level; the plan is untouched. */
    method SelectLevel(level: CareLevel)
      requires Valid()
      modifies this
      ensures Valid()
      ensures selectedLevel == level
      ensures plan == old(plan) && nextToken == old(nextToken)
    {
      selectedLevel := level;
    }

    /** Add a card for `svc` to `slot`. A rental already in the monthly bucket
        is not added again and uses up no token. */
    method AddService(slot: Slot, svc: Service)
      requires Valid()
      modifies this
      ensures Valid()
      ensures plan == Added(old(plan), slot, svc, old(nextToken))
      ensures nextToken == old(nextToken) +
        (if slot == Monthly && HasService(old(plan)[Monthly], svc.id) then 0 else 1)
      ensures selectedLevel == old(selectedLevel)
    {
      if slot == Monthly && HasService(plan[Monthly], svc.id) {
        return;
      }
      AddedKeepsInvariant(plan, nextToken, slot, svc);
      plan := plan[slot := plan[slot] + [Entry(svc, nextToken)]];
      nextToken := nextToken + 1;
    }

    /** Remove from `slot` every card carrying `instanceId`. */
    method RemoveService(slot: Slot, instanceId: nat)
      requires Valid()
      modifies this
      ensures Valid()
      ensures plan == Removed(old(plan), slot, instanceId)
      ensures nextToken == old(nextToken) && selectedLevel == old(selectedLevel)
    {
      RemovedKeepsInvariant(plan, nextToken, slot, instanceId);
      plan := plan[slot := Without(plan[slot], instanceId)];
    }

    /** The monthly units of the current plan, accumulated day by day: each
        weekday's units four times over, then the monthly bucket once. */
    method TotalUnits() returns (total: nat)
      requires Valid()
      ensures total == TotalMonthlyUnits(plan)
    {
      total := 0;
      for i := 0 to |Days|
        invariant total == WeeksPerMonth * WeekdayUnits(plan, Days[..i])
      {
        var dailyUnits := SlotUnits(plan[Weekday(Days[i])]);
        total := total + dailyUnits * WeeksPerMonth;
        assert Days[..i + 1][..i] == Days[..i];
      }
      assert Days[..|Days|] == Days;
      var monthlyUnits := SlotUnits(plan[Monthly]);
      total := total + monthlyUnits;
    }
  }
}
