/** Worked examples of the calculator on the reference catalogue. */
module Scenarios {
  import opened Catalog
  import opened Schedule
  import opened Aggregate
  import opened Budget

  /** An empty plan on level 3 uses nothing, is within the limit and costs nothing. */
  lemma EmptyPlanOnLevelThree()
    ensures TotalMonthlyUnits(EmptyPlan()) == 0
    ensures !IsOverLimit(TotalMonthlyUnits(EmptyPlan()), CareLevels[2])
    ensures Cost(TotalMonthlyUnits(EmptyPlan()), CareLevels[2]) == 0
  {
    EmptyPlanTotal();
  }

  /** One 7-8 hour day-service visit on Mondays counts four times a month:
      3000 units, costing 3000 yen on level 3. */
  lemma OneMondayDayService(token: nat)
    ensures TotalMonthlyUnits(Added(EmptyPlan(), Weekday(Mon), Services[0], token)) == 3000
    ensures Cost(TotalMonthlyUnits(Added(EmptyPlan(), Weekday(Mon), Services[0], token)), CareLevels[2]) == 3000
  {
    EmptyPlanTotal();
    AddedTotal(EmptyPlan(), Weekday(Mon), Services[0], token);
  }

  /** A special-bed rental counts once a month: 1200 units, within the level 1
      cap, costing 1200 yen. */
  lemma OneBedRental(token: nat)
    ensures TotalMonthlyUnits(Added(EmptyPlan(), Monthly, Services[5], token)) == 1200
    ensures !IsOverLimit(TotalMonthlyUnits(Added(EmptyPlan(), Monthly, Services[5], token)), CareLevels[0])
    ensures Cost(TotalMonthlyUnits(Added(EmptyPlan(), Monthly, Services[5], token)), CareLevels[0]) == 1200
  {
    EmptyPlanTotal();
    AddedTotal(EmptyPlan(), Monthly, Services[5], token);
  }

  /** A plan totalling 40000 units on level 3 (cap 27048) is over the limit:
      the capped part costs 27048 yen and the 12952 units over cost 129520
      yen, 156568 yen in all. */
  lemma OverLimitOnLevelThree(p: Plan)
    requires Complete(p) && TotalMonthlyUnits(p) == 40000
    ensures IsOverLimit(TotalMonthlyUnits(p), CareLevels[2])
    ensures Cost(TotalMonthlyUnits(p), CareLevels[2]) == 156568
  {
  }
}
