/** Aggregation: the plan's monthly unit figure. Each weekday bucket is
    counted four times (a month is taken to be four weeks) and the monthly
    bucket once. */
module Aggregate {
  import opened Catalog
  import opened Schedule

  /** Each weekday is taken to occur this many times a month. */
  const WeeksPerMonth: nat := 4

  /** Units of one bucket, summed left to right as the source's reduce does. */
  function SlotUnits(b: seq<Entry>): (r: nat)
    ensures forall k :: 0 <= k < |b| ==> b[k].service.units <= r
  {
    if b == [] then 0 else SlotUnits(b[..|b| - 1]) + b[|b| - 1].service.units
  }

  /** Units of the weekday buckets named in `days`, summed in that order. */
  function WeekdayUnits(p: Plan, days: seq<Day>): (r: nat)
    requires Complete(p)
    ensures forall d :: d in days ==> SlotUnits(p[Weekday(d)]) <= r
  {
    if days == [] then 0
    else WeekdayUnits(p, days[..|days| - 1]) + SlotUnits(p[Weekday(days[|days| - 1])])
  }

  /** The plan's monthly units, in closed form: four times the units of all
      seven weekday buckets, plus the units of the monthly bucket. */
  function TotalMonthlyUnits(p: Plan): (r: nat)
    requires Complete(p)
    ensures SlotUnits(p[Monthly]) <= r
    ensures forall d :: WeeksPerMonth * SlotUnits(p[Weekday(d)]) <= r
  {
    DaysDistinct();
    WeeksPerMonth * WeekdayUnits(p, Days) + SlotUnits(p[Monthly])
  }

  /** How many times a card in `slot` is counted in the monthly total. */
  function Weight(slot: Slot): (r: nat)
    ensures r >= 1
    ensures r == 1 <==> slot == Monthly
  {
    match slot
    case Monthly => 1
    case Weekday(_) => WeeksPerMonth
  }

  /** Bucket units are additive over concatenation. */
  lemma {:induction false} SlotUnitsAppend(a: seq<Entry>, b: seq<Entry>)
    ensures SlotUnits(a + b) == SlotUnits(a) + SlotUnits(b)
  {
    if b == [] {
      assert a + b == a;
    } else {
      SlotUnitsAppend(a, b[..|b| - 1]);
      assert (a + b)[..|a + b| - 1] == a + b[..|b| - 1];
    }
  }

  /** Filtering cards out of a bucket never adds units. */
  lemma {:induction false} WithoutUnits(b: seq<Entry>, id: nat)
    ensures SlotUnits(Without(b, id)) <= SlotUnits(b)
  {
    if b != [] {
      var rest := b[1..];
      var head := if b[0].instanceId == id then [] else [b[0]];
      assert Without(b, id) == head + Without(rest, id);
      assert SlotUnits(head) <= b[0].service.units by {
        assert [b[0]][..0] == [];
      }
      calc {
        SlotUnits(Without(b, id));
        { SlotUnitsAppend(head, Without(rest, id)); }
        SlotUnits(head) + SlotUnits(Without(rest, id));
      <= { WithoutUnits(rest, id); }
        b[0].service.units + SlotUnits(rest);
        { assert [b[0]][..0] == []; }
        SlotUnits([b[0]]) + SlotUnits(rest);
        { SlotUnitsAppend([b[0]], rest); assert b == [b[0]] + rest; }
        SlotUnits(b);
      }
    }
  }

  /** Replacing one weekday bucket changes the weekday units by the change
      in that bucket's units, if the day is listed (days listed once each). */
  lemma {:induction false} WeekdayUnitsUpdate(p: Plan, days: seq<Day>, d: Day, b: seq<Entry>)
    requires Complete(p)
    requires forall i, j :: 0 <= i < j < |days| ==> days[i] != days[j]
    ensures WeekdayUnits(p[Weekday(d) := b], days) ==
      WeekdayUnits(p, days) + (if d in days then SlotUnits(b) - SlotUnits(p[Weekday(d)]) else 0)
  {
    if days != [] {
      var init, last := days[..|days| - 1], days[|days| - 1];
      var q := p[Weekday(d) := b];
      WeekdayUnitsUpdate(p, init, d, b);
      assert WeekdayUnits(q, days) == WeekdayUnits(q, init) + SlotUnits(q[Weekday(last)]);
      assert WeekdayUnits(p, days) == WeekdayUnits(p, init) + SlotUnits(p[Weekday(last)]);
      assert d in days <==> d in init || d == last by {
        assert days == init + [last];
      }
      assert last == d ==> d !in init;
    }
  }

  /** Weekday units depend only on the weekday buckets. */
  lemma {:induction false} WeekdayUnitsFrame(p: Plan, q: Plan, days: seq<Day>)
    requires Complete(p) && Complete(q)
    requires forall d :: p[Weekday(d)] == q[Weekday(d)]
    ensures WeekdayUnits(p, days) == WeekdayUnits(q, days)
  {
    if days != [] {
      WeekdayUnitsFrame(p, q, days[..|days| - 1]);
    }
  }

  /** Replacing the bucket of `slot` changes the monthly total by the change
      in that bucket's units, times the slot's weight. */
  lemma TotalAfterUpdate(p: Plan, slot: Slot, b: seq<Entry>)
    requires Complete(p)
    ensures TotalMonthlyUnits(p[slot := b]) ==
      TotalMonthlyUnits(p) + Weight(slot) * (SlotUnits(b) - SlotUnits(p[slot]))
  {
    var q := p[slot := b];
    match slot
    case Monthly =>
      WeekdayUnitsFrame(p, q, Days);
    case Weekday(d) =>
      DaysDistinct();
      WeekdayUnitsUpdate(p, Days, d, b);
  }

  /** An empty plan uses no units. */
  lemma {:induction false} EmptyWeekdayUnits(days: seq<Day>)
    ensures WeekdayUnits(EmptyPlan(), days) == 0
  {
    if days != [] {
      EmptyWeekdayUnits(days[..|days| - 1]);
    }
  }

  lemma EmptyPlanTotal()
    ensures TotalMonthlyUnits(EmptyPlan()) == 0
  {
    EmptyWeekdayUnits(Days);
  }

  /** Adding a service raises the total by its units times the slot's weight,
      unless it is a monthly rental already present; so adding never lowers
      the total, and adding a catalogue service that is not deduplicated
      strictly raises it. */
  lemma AddedTotal(p: Plan, slot: Slot, svc: Service, token: nat)
    requires Complete(p)
    ensures TotalMonthlyUnits(Added(p, slot, svc, token)) == TotalMonthlyUnits(p) +
      (if slot == Monthly && HasService(p[Monthly], svc.id) then 0 else Weight(slot) * svc.units)
    ensures TotalMonthlyUnits(Added(p, slot, svc, token)) >= TotalMonthlyUnits(p)
    ensures svc in Services && !(slot == Monthly && HasService(p[Monthly], svc.id)) ==>
      TotalMonthlyUnits(Added(p, slot, svc, token)) > TotalMonthlyUnits(p)
  {
    if !(slot == Monthly && HasService(p[Monthly], svc.id)) {
      var b := p[slot] + [Entry(svc, token)];
      assert b[..|b| - 1] == p[slot];
      TotalAfterUpdate(p, slot, b);
      CatalogWellFormed();
    }
  }

  /** Removing a card never raises the total. */
  lemma RemovedTotal(p: Plan, slot: Slot, id: nat)
    requires Complete(p)
    ensures TotalMonthlyUnits(Removed(p, slot, id)) <= TotalMonthlyUnits(p)
  {
    WithoutUnits(p[slot], id);
    TotalAfterUpdate(p, slot, Without(p[slot], id));
  }

  /** In a plan kept by the store, removing card `k` of a slot lowers the
      total by exactly that card's units times the slot's weight. */
  lemma RemovedCardTotal(p: Plan, next: nat, slot: Slot, k: nat)
    requires Invariant(p, next) && k < |p[slot]|
    ensures TotalMonthlyUnits(Removed(p, slot, p[slot][k].instanceId)) ==
      TotalMonthlyUnits(p) - Weight(slot) * p[slot][k].service.units
  {
    BucketTokensDistinct(p, next, slot);
    RemovedUniqueCardTotal(p, slot, k);
  }

  /** The same, needing only that the slot's tokens are distinct. */
  lemma RemovedUniqueCardTotal(p: Plan, slot: Slot, k: nat)
    requires Complete(p) && k < |p[slot]| && BucketTokensUnique(p[slot])
    ensures TotalMonthlyUnits(Removed(p, slot, p[slot][k].instanceId)) ==
      TotalMonthlyUnits(p) - Weight(slot) * p[slot][k].service.units
  {
    var b := p[slot];
    WithoutCardUnits(b, k);
    TotalAfterShrink(p, slot, Without(b, b[k].instanceId), b[k].service.units);
  }

  /** Shrinking a slot's bucket by `u` units lowers the total by `u` times
      the slot's weight. */
  lemma TotalAfterShrink(p: Plan, slot: Slot, w: seq<Entry>, u: nat)
    requires Complete(p) && SlotUnits(w) + u == SlotUnits(p[slot])
    ensures TotalMonthlyUnits(p[slot := w]) + Weight(slot) * u == TotalMonthlyUnits(p)
  {
    TotalAfterUpdate(p, slot, w);
    var delta: int := SlotUnits(w) as int - SlotUnits(p[slot]);
    assert delta == -(u as int);
    match slot
    case Monthly =>
    case Weekday(_) =>
  }

  /** With distinct tokens, removing card `k`'s token lowers the bucket's
      units by exactly that card's units. */
  lemma WithoutCardUnits(b: seq<Entry>, k: nat)
    requires k < |b| && BucketTokensUnique(b)
    ensures SlotUnits(Without(b, b[k].instanceId)) == SlotUnits(b) - b[k].service.units
  {
    RemoveExactlyOne(b, k);
    assert b == b[..k] + [b[k]] + b[k + 1..];
    SlotUnitsAppend(b[..k] + [b[k]], b[k + 1..]);
    SlotUnitsAppend(b[..k], [b[k]]);
    SlotUnitsAppend(b[..k], b[k + 1..]);
    assert [b[k]][..0] == [];
  }

  /** In a plan kept by the store whose cards all come from the catalogue,
      removing any card strictly lowers the total. */
  lemma RemovedCardLowersTotal(p: Plan, next: nat, slot: Slot, k: nat)
    requires Invariant(p, next) && CardsFromCatalogue(p, Services) && k < |p[slot]|
    ensures TotalMonthlyUnits(Removed(p, slot, p[slot][k].instanceId)) < TotalMonthlyUnits(p)
  {
    RemovedCardTotal(p, next, slot, k);
    assert p[slot][k].service in Services;
    CatalogWellFormed();
  }
}
