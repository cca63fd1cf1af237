# Care-plan calculator, modelled in Dafny

This project models the calculation core of a long-term-care plan app. The
user picks a care level (要介護1..5, each with a monthly cap in units). They
then schedule services into seven weekday buckets and one monthly bucket.
The app reports:

- the plan's monthly units: each weekday's units counted four times, plus the
  monthly rentals counted once;
- whether that exceeds the level's cap;
- the out-of-pocket cost in yen. Units up to the cap are paid at a 10%
  co-pay of 10 yen per unit. Units beyond the cap are paid at the full 10 yen.

Modules, one per component of the calculator:

- `Catalog` (catalog.dfy): the care levels, the service catalogue, the
  weekdays, and the add dialog's filter over the catalogue.
- `Schedule` (schedule.dfy): cards (`Entry`), slots, the plan as a map from
  slot to bucket, and what adding and removing a service does to a plan
  value (`Added`, `Removed`). It also holds the store's invariant: card tokens
  are fresh and unique, and a rental appears at most once in the monthly bucket.
- `Aggregate` (aggregate.dfy): the monthly total in closed form, and how
  adding or removing a card moves it.
- `Budget` (budget.dfy): the over-limit test and the tiered cost.
- `Store` (store.dfy): class `CarePlan`, the mutable state (selected level,
  plan, token counter). Its methods change that state in place. `TotalUnits`
  is the day-by-day accumulation loop, proved equal to the closed form.
- `Scenarios` (scenarios.dfy): worked examples on the reference catalogue.

Modelling choices:

- A card's `instanceId` comes from a counter (`nextToken`) instead of a clock
  reading. This makes tokens fresh and distinct, and the store's invariant
  records that.
- The co-pay ratio 0.1 is kept exact as 1/10, and `Math.floor` becomes integer
  division. The source's products are `(10·k)·0.1`. While `10·k` and the
  over-cap sum stay below 2^53 (the range in which IEEE doubles hold every
  integer exactly), such a product never rounds below `k`, and adding a whole
  number of yen to it does not either. So within that range the floor gives
  the same integers as the exact arithmetic.
- The plan is a `map<Slot, seq<Entry>>` with one bucket per slot, like the
  source's plan object with its seven day keys and `monthly`. An unknown day
  key cannot be expressed.
- Unit values are `nat`. Every catalogue service costs a positive number of
  units (`Catalog.CatalogWellFormed`).

What the code does not check, and the model therefore does not check either:

- `addService` does not reject a service that is missing from the catalogue.
  It also does not reject a rental added to a weekday, or a per-visit service
  added to the monthly bucket. Only the dialog's filter, which lists catalogue
  services of the slot's kind, keeps the plan in shape. The model states the
  two invariants this filter maintains: every card sits in a slot of its kind
  (`Schedule.CardsMatchSlots`), and every card is a catalogue service
  (`Schedule.CardsFromCatalogue`). It proves that adds through the dialog
  and all removals keep both.
- There is no separate overage figure. The units over the cap appear only
  inside the cost rule.

Two predicates are the source's comparisons as they stand. `Budget.IsOverLimit`
is the cap comparison at src/App.jsx:194; what it means for a plan is stated
by `Budget.OverLimitIffSurcharge`, `Budget.AddedKeepsOverLimit` and
`Budget.RemovedKeepsWithinLimit`. `Schedule.HasService` is the monthly
duplicate test at src/App.jsx:162; what it means for an add is stated by
`Schedule.AddedMonthly` and `Schedule.AddedMonthlyIdempotent`.

## Model

| member | source | states |
|---|---|---|
| Catalog.CatalogWellFormed | src/App.jsx:9-25 | every service costs a positive number of units; service ids are unique; levels are ranked 1..5 with positive, strictly increasing caps |
| Catalog.DaysDistinct | src/App.jsx:27 | every weekday occurs in the day list, and exactly once |
| Catalog.Offered | src/App.jsx:373 | the dialog lists exactly the catalogue services whose monthly flag matches the slot kind, and no more services than the catalogue has |
| Catalog.OfferedPartition | src/App.jsx:373 | the monthly and the weekday lists together hold every catalogue service exactly as often as the catalogue does; each service is offered for exactly one kind of slot |
| Schedule.EmptyPlan | src/App.jsx:142-145 | the initial plan has a bucket for each of the eight slots, and each bucket is empty |
| Schedule.Without | src/App.jsx:179 | the filtered bucket holds exactly the cards of the bucket whose token differs from the one removed |
| Schedule.Added | src/App.jsx:160-172 | after an add every slot still has a bucket, and every slot other than the target is unchanged |
| Schedule.Removed | src/App.jsx:176-181 | after a removal every slot still has a bucket, and every slot other than the target is unchanged |
| Schedule.EmptyPlanInvariant | src/App.jsx:142-145 | the initial plan satisfies the store invariant for any counter value |
| Schedule.AddedKeepsInvariant | src/App.jsx:160-172 | adding under the next token keeps tokens fresh and unique, and keeps rentals unique in the monthly bucket, with the counter advanced by one |
| Schedule.WithoutKeepsDistinct | src/App.jsx:179 | filtering a bucket keeps distinct tokens (or distinct service ids) distinct |
| Schedule.RemovedKeepsInvariant | src/App.jsx:176-181 | removing a card keeps the store invariant with the counter unchanged |
| Schedule.AddedWeekdayAppends | src/App.jsx:167-171 | adding to a weekday appends exactly one card at the end of that day's bucket, even when the same service is already scheduled there |
| Schedule.AddedMonthly | src/App.jsx:161-166 | adding to the monthly bucket leaves the plan unchanged exactly when the service id is already there; otherwise it appends one card; afterwards the service is present |
| Schedule.AddedMonthlyIdempotent | src/App.jsx:161-166 | adding the same service to the monthly bucket twice gives the same plan as adding it once |
| Schedule.WithoutAppend | src/App.jsx:179 | removal distributes over concatenation, so kept cards stay in their order and each card is kept or dropped on its own token |
| Schedule.WithoutAbsent | src/App.jsx:179 | removing a token that no card carries leaves the bucket as it is |
| Schedule.WithoutIdempotent | src/App.jsx:179 | filtering a bucket twice by the same token equals filtering once |
| Schedule.RemoveExactlyOne | src/App.jsx:176-181 | with distinct tokens, removing card k's token takes out exactly card k and keeps the rest in order |
| Schedule.RemovedIdempotent | src/App.jsx:176-181 | removing the same token from the same slot twice gives the same plan as removing it once |
| Schedule.AddedThenRemoved | src/App.jsx:160-181 | for every add, removing by the add's fresh token restores the plan exactly, whether the add created a card or skipped a duplicate rental |
| Schedule.DialogAddKeepsKinds | src/App.jsx:373-376 | adding a service the dialog offers for a slot keeps rentals only in the monthly bucket and per-visit services only on weekdays |
| Schedule.RemovedKeepsKinds | src/App.jsx:176-181 | removing a card keeps every remaining card in a slot of its own kind |
| Schedule.EmptyPlanFromCatalogue | src/App.jsx:142-145 | the initial plan holds only catalogue services (it holds none) |
| Schedule.DialogAddKeepsCatalogue | src/App.jsx:373-376 | adding a service the dialog offers for a slot keeps every card of the plan a catalogue service |
| Schedule.RemovedKeepsCatalogue | src/App.jsx:176-181 | removing cards keeps every remaining card a catalogue service |
| Aggregate.SlotUnits | src/App.jsx:186 | defined as the left-to-right sum of a bucket's card units; the contract states that the sum is at least the units of each of its cards |
| Aggregate.WeekdayUnits | src/App.jsx:185-188 | the weekday sum over a list of days is at least the unit sum of each listed day's bucket |
| Aggregate.TotalMonthlyUnits | src/App.jsx:183-192 | defined as 4 times the weekday sums plus the monthly sum; the contract states that the total is at least the monthly bucket's units and at least 4 times any one weekday's units |
| Aggregate.Weight | src/App.jsx:187-190 | defined as 1 for the monthly bucket and 4 for a weekday; the contract states that a card counts at least once, and exactly once if and only if it sits in the monthly bucket |
| Aggregate.SlotUnitsAppend | src/App.jsx:186 | a bucket's unit sum is additive over concatenation |
| Aggregate.WithoutUnits | src/App.jsx:179 | filtering cards out of a bucket never increases its unit sum |
| Aggregate.WeekdayUnitsUpdate | src/App.jsx:185-188 | replacing one weekday's bucket changes the weekday sum by exactly that bucket's change, when each day is listed once |
| Aggregate.WeekdayUnitsFrame | src/App.jsx:185-188 | the weekday sum depends only on the weekday buckets |
| Aggregate.TotalAfterUpdate | src/App.jsx:183-192 | replacing a slot's bucket changes the monthly total by 4 times the change in that bucket's units for a weekday, and by 1 times for the monthly bucket |
| Aggregate.EmptyPlanTotal | src/App.jsx:183-192 | the empty plan totals zero units |
| Aggregate.AddedTotal | src/App.jsx:183-192 | an add raises the total by 4 times the service's units on a weekday, and by its units in the monthly bucket; a duplicate rental adds nothing; the total never falls, and it strictly rises for a catalogue service that is added |
| Aggregate.RemovedTotal | src/App.jsx:176-192 | removing cards never raises the total |
| Aggregate.RemovedCardTotal | src/App.jsx:176-192 | in a store-kept plan, removing card k lowers the total by exactly its units times its slot's weight |
| Aggregate.RemovedCardLowersTotal | src/App.jsx:176-192 | in a store-kept plan whose cards come from the catalogue, removing any card strictly lowers the monthly total |
| Budget.Cost | src/App.jsx:196-205 | within the cap the cost is the unit total (1 yen a unit); over the cap it is the cap plus 10 yen per unit over |
| Budget.CostContinuousAtCap | src/App.jsx:196-205 | at the cap, both tiers give the same cost, and one more unit costs exactly 10 yen more |
| Budget.CostMonotone | src/App.jsx:196-205 | more units never cost less |
| Budget.OverLimitIffSurcharge | src/App.jsx:194-205 | a plan is over the limit exactly when its cost exceeds its unit total, that is, exactly when some units are billed at the full price |
| Budget.AddedKeepsOverLimit | src/App.jsx:160-205 | an add never brings an over-limit plan under the cap, and never lowers the cost |
| Budget.RemovedKeepsWithinLimit | src/App.jsx:176-205 | a removal never pushes a plan over the cap, and never raises the cost |
| Store.CarePlan.constructor | src/App.jsx:141-145 | the store opens on level 3 with all buckets empty, and the invariant holds |
| Store.CarePlan.SelectLevel | src/App.jsx:252 | choosing a level replaces the selected level and leaves the plan and counter unchanged |
| Store.CarePlan.AddService | src/App.jsx:160-174 | the new plan is `Added` of the old one under the next token; the counter advances unless a duplicate rental was skipped; the level is unchanged; the invariant is kept |
| Store.CarePlan.RemoveService | src/App.jsx:176-181 | the new plan is `Removed` of the old one; the counter and level are unchanged; the invariant is kept |
| Store.CarePlan.TotalUnits | src/App.jsx:183-192 | the day-by-day accumulation (each weekday's units times 4, then the monthly units) equals the closed-form monthly total |
| Scenarios.EmptyPlanOnLevelThree | src/App.jsx:141-145 | an empty plan on level 3 totals 0 units, is within the limit and costs 0 yen |
| Scenarios.OneMondayDayService | src/App.jsx:183-192 | one 750-unit day service on Mondays totals 3000 units and costs 3000 yen on level 3 |
| Scenarios.OneBedRental | src/App.jsx:189-190 | the plan holding one bed rental totals 1200 units, is within the level 1 cap and costs 1200 yen |
| Scenarios.OverLimitOnLevelThree | src/App.jsx:194-205 | any plan totalling 40000 units is over the level 3 cap and costs 156568 yen |

## Left out

- Login and the session screen (`App`, `AuthScreen`): this is a simulated sign-in driven by timers and has no calculation.
- Saving (`handleSave`) and the success overlay: this is a timer that pretends to save, and nothing is persisted. No snapshot or load operation exists in the code.
- All rendering: `ServiceCard`, the per-day "units per visit" label, `toLocaleString` formatting, and the modal's open and close state. This includes the modal closing after an add (src/App.jsx:173).
- The progress-bar percentage (src/App.jsx:278): floating-point display only.
- The clock as the source of card ids: replaced by the token counter. A clock can return the same millisecond twice; the model assumes every token is fresh.
- The display fields of catalogue entries (name, icon, colour, the `type` tag).
- The monthly dedup check reads the last rendered plan, while the update applies to the pending one. Under React's batching these could differ between two adds issued before a re-render. The model is sequential, so they are the same plan.
- src/main.tsx: a React DOM bootstrap with no logic.
- Budget.Cost: unit totals are unbounded integers; the source's floating-point arithmetic is exact only while the totals and `10·k` stay below 2^53, and the model assumes they do.
