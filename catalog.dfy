/** Static reference data of the care-plan calculator: the five care levels
    with their monthly unit caps, the service catalogue, the seven weekdays,
    and the filter the add dialog applies to the catalogue. */
module Catalog {

  /** A care level (要介護1 .. 要介護5) and the units reimbursable per month.
      The display name and colour are presentation only and are not kept. */
  datatype CareLevel = CareLevel(level: nat, maxUnits: nat)

  /** A schedulable service: its identifier, its unit cost, and whether it is
      a flat monthly rental (`isMonthly`) rather than a per-visit service.
      Name, icon and the display `type` tag are presentation only. */
  datatype Service = Service(id: string, units: nat, isMonthly: bool)

  datatype Day = Mon | Tue | Wed | Thu | Fri | Sat | Sun

  const CareLevels: seq<CareLevel> := [
    CareLevel(1, 16765),
    CareLevel(2, 19705),
    CareLevel(3, 27048),
    CareLevel(4, 30938),
    CareLevel(5, 36217)
  ]

  /** The level selected when the calculator opens: the third one, 要介護3. */
  const DefaultLevel: CareLevel := CareLevels[2]

  /** A service with no `isMonthly` key in the catalogue is a per-visit one. */
  const Services: seq<Service> := [
    Service("day_service_7", 750, false),
    Service("day_service_5", 580, false),
    Service("helper_life", 183, false),
    Service("helper_body", 250, false),
    Service("nurse", 469, false),
    Service("rental_bed", 1200, true),
    Service("rental_wheelchair", 600, true)
  ]

  /** The weekday buckets, in the order the aggregation visits them. */
  const Days: seq<Day> := [Mon, Tue, Wed, Thu, Fri, Sat, Sun]

  /** The catalogue is well formed: every service costs a positive number of
      units, service ids are unique, and the care levels are ranked 1..5 with
      strictly increasing caps. */
  lemma CatalogWellFormed()
    ensures forall i :: 0 <= i < |Services| ==> Services[i].units > 0
    ensures forall i, j :: 0 <= i < j < |Services| ==> Services[i].id != Services[j].id
    ensures |CareLevels| == 5
    ensures forall i :: 0 <= i < |CareLevels| ==> CareLevels[i].level == i + 1 && CareLevels[i].maxUnits > 0
    ensures forall i, j :: 0 <= i < j < |CareLevels| ==> CareLevels[i].maxUnits < CareLevels[j].maxUnits
  {
  }

  /** Every weekday occurs exactly once in `Days`. */
  lemma DaysDistinct()
    ensures forall d: Day :: d in Days
    ensures forall i, j :: 0 <= i < j < |Days| ==> Days[i] != Days[j]
  {
    forall d: Day ensures d in Days {
      match d
      case Mon => assert Days[0] == d;
      case Tue => assert Days[1] == d;
      case Wed => assert Days[2] == d;
      case Thu => assert Days[3] == d;
      case Fri => assert Days[4] == d;
      case Sat => assert Days[5] == d;
      case Sun => assert Days[6] == d;
    }
  }

  /** The services the add dialog lists, in catalogue order: the monthly
      rentals when adding to the monthly bucket (`monthly` true), every other
      service when adding to a weekday. */
  function Offered(services: seq<Service>, monthly: bool): (r: seq<Service>)
    ensures |r| <= |services|
    ensures forall s :: s in r <==> s in services && s.isMonthly == monthly
  {
    if services == [] then []
    else if services[0].isMonthly == monthly then [services[0]] + Offered(services[1..], monthly)
    else Offered(services[1..], monthly)
  }

  /** The two dialog filters split the catalogue: every service is offered for
      exactly one kind of slot, and together the two lists hold every service
      exactly as often as the catalogue does. */
  lemma {:induction false} OfferedPartition(services: seq<Service>)
    ensures multiset(Offered(services, true)) + multiset(Offered(services, false)) == multiset(services)
    ensures forall s :: s in services ==> (s in Offered(services, true) <==> s !in Offered(services, false))
  {
    if services != [] {
      OfferedPartition(services[1..]);
      assert services == [services[0]] + services[1..];
    }
  }
}
