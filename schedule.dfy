/** The plan the user assembles: one bucket of scheduled entries per weekday
    and one monthly bucket, and the effect of adding and removing a service
    on that plan, stated as functions on plan values. The stateful store that
    applies them lives in module Store. */
module Schedule {
  import opened Catalog

  /** A scheduled card: a copy of the catalogue service plus the token that
      identifies this one card (`instanceId`). */
  datatype Entry = Entry(service: Service, instanceId: nat)

  /** A bucket of the plan: one of the seven weekdays, or the monthly bucket. */
  datatype Slot = Weekday(day: Day) | Monthly

  /** The weekly plan, keyed like the source's plan object: seven day keys
      and `monthly`. */
  type Plan = map<Slot, seq<Entry>>

  /** Every slot has a bucket. */
  ghost predicate Complete(p: Plan) {
    forall s: Slot :: s in p
  }

  /** The plan the calculator opens with: all eight buckets empty. */
  function EmptyPlan(): (p: Plan)
    ensures Complete(p)
    ensures forall s :: p[s] == []
  {
    var p := map[Weekday(Mon) := [], Weekday(Tue) := [], Weekday(Wed) := [], Weekday(Thu) := [],
                 Weekday(Fri) := [], Weekday(Sat) := [], Weekday(Sun) := [], Monthly := []];
    CompleteByCases(p);
    p
  }

  /** A plan with a bucket for each of the eight slots is complete. */
  lemma CompleteByCases(p: Plan)
    requires Monthly in p
    requires Weekday(Mon) in p && Weekday(Tue) in p && Weekday(Wed) in p && Weekday(Thu) in p
    requires Weekday(Fri) in p && Weekday(Sat) in p && Weekday(Sun) in p
    ensures Complete(p)
  {
    forall s: Slot ensures s in p {
      match s
      case Monthly =>
      case Weekday(d) =>
        match d
        case Mon => case Tue => case Wed => case Thu => case Fri => case Sat => case Sun =>
    }
  }

  /** Some entry of the bucket is a copy of the service with this id. */
  predicate HasService(b: seq<Entry>, id: string) {
    exists k :: 0 <= k < |b| && b[k].service.id == id
  }

  /** The bucket with every entry carrying token `id` filtered out. */
  function Without(b: seq<Entry>, id: nat): (r: seq<Entry>)
    ensures |r| <= |b|
    ensures forall e :: e in r <==> e in b && e.instanceId != id
  {
    if b == [] then []
    else (if b[0].instanceId == id then [] else [b[0]]) + Without(b[1..], id)
  }

  /** The plan after adding `svc` to `slot` under the fresh token `token`:
      a weekday bucket always gains one entry at its end; the monthly bucket
      gains one only if no entry there has the same service id. */
  function Added(p: Plan, slot: Slot, svc: Service, token: nat): (q: Plan)
    requires Complete(p)
    ensures Complete(q)
    ensures forall s :: s != slot ==> q[s] == p[s]
  {
    if slot == Monthly && HasService(p[Monthly], svc.id) then p
    else p[slot := p[slot] + [Entry(svc, token)]]
  }

  /** The plan after removing the card with token `id` from `slot`. */
  function Removed(p: Plan, slot: Slot, id: nat): (q: Plan)
    requires Complete(p)
    ensures Complete(q)
    ensures forall s :: s != slot ==> q[s] == p[s]
  {
    p[slot := Without(p[slot], id)]
  }

  // ---------------------------------------------------------------------
  // The store's invariant: tokens are fresh and unique, and no service is
  // rented twice in the monthly bucket.

  /** Every token in the plan was issued before `next`. */
  ghost predicate TokensBelow(p: Plan, next: nat) {
    forall s, k :: s in p && 0 <= k < |p[s]| ==> p[s][k].instanceId < next
  }

  /** No two cards of the plan, in any slots, share a token. */
  ghost predicate PlanTokensUnique(p: Plan) {
    forall s1, k1, s2, k2 ::
      (s1 in p && s2 in p && 0 <= k1 < |p[s1]| && 0 <= k2 < |p[s2]| &&
       p[s1][k1].instanceId == p[s2][k2].instanceId) ==> s1 == s2 && k1 == k2
  }

  function TokenOf(e: Entry): nat { e.instanceId }
  function ServiceIdOf(e: Entry): string { e.service.id }

  /** No two cards of the bucket agree on `key`. */
  ghost predicate DistinctBy<K>(b: seq<Entry>, key: Entry -> K) {
    forall i, j :: 0 <= i < |b| && 0 <= j < |b| && key(b[i]) == key(b[j]) ==> i == j
  }

  /** No two cards of one bucket share a token. */
  ghost predicate BucketTokensUnique(b: seq<Entry>) {
    DistinctBy(b, TokenOf)
  }

  /** No service occurs twice in the bucket. */
  ghost predicate NoDuplicateService(b: seq<Entry>) {
    DistinctBy(b, ServiceIdOf)
  }

  ghost predicate Invariant(p: Plan, next: nat) {
    Complete(p) && TokensBelow(p, next) && PlanTokensUnique(p) && NoDuplicateService(p[Monthly])
  }

  lemma EmptyPlanInvariant(next: nat)
    ensures Invariant(EmptyPlan(), next)
  {
  }

  /** Adding under the next token keeps the invariant, with the token counter
      advanced by one. */
  lemma AddedKeepsInvariant(p: Plan, next: nat, slot: Slot, svc: Service)
    requires Invariant(p, next)
    ensures Invariant(Added(p, slot, svc, next), next + 1)
  {
    var q := Added(p, slot, svc, next);
    if q != p {
      var e := Entry(svc, next);
      assert q[slot] == p[slot] + [e];
      forall s, k | s in q && 0 <= k < |q[s]|
        ensures q[s][k] == (if s == slot && k == |p[slot]| then e else p[s][k])
        ensures (s == slot && k == |p[slot]|) || k < |p[s]|
      {
      }
    }
  }

  /** The tail of a bucket with distinct keys has distinct keys, none equal
      to the head's. */
  lemma DistinctByTail<K>(b: seq<Entry>, key: Entry -> K)
    requires b != [] && DistinctBy(b, key)
    ensures DistinctBy(b[1..], key)
    ensures forall e :: e in b[1..] ==> key(e) != key(b[0])
  {
    var rest := b[1..];
    forall i, j | 0 <= i < |rest| && 0 <= j < |rest| && key(rest[i]) == key(rest[j])
      ensures i == j
    {
      assert b[i + 1] == rest[i] && b[j + 1] == rest[j];
    }
    forall e | e in rest ensures key(e) != key(b[0]) {
      var m :| 0 <= m < |rest| && rest[m] == e;
      assert b[m + 1] == e;
    }
  }

  /** Putting a card whose key is new in front of a bucket with distinct keys
      keeps the keys distinct. */
  lemma DistinctByCons<K>(x: Entry, r: seq<Entry>, key: Entry -> K)
    requires DistinctBy(r, key)
    requires forall e :: e in r ==> key(e) != key(x)
    ensures DistinctBy([x] + r, key)
  {
    var c := [x] + r;
    forall i, j | 0 <= i < |c| && 0 <= j < |c| && key(c[i]) == key(c[j])
      ensures i == j
    {
      if i > 0 && j > 0 {
        assert c[i] == r[i - 1] && c[j] == r[j - 1];
      }
    }
  }

  /** Filtering a bucket keeps distinct keys distinct. */
  lemma {:induction false} WithoutKeepsDistinct<K>(b: seq<Entry>, id: nat, key: Entry -> K)
    requires DistinctBy(b, key)
    ensures DistinctBy(Without(b, id), key)
  {
    if b != [] {
      DistinctByTail(b, key);
      WithoutKeepsDistinct(b[1..], id, key);
      if b[0].instanceId != id {
        DistinctByCons(b[0], Without(b[1..], id), key);
      }
    }
  }

  /** In a plan kept by the store, the tokens within any one bucket are distinct. */
  lemma BucketTokensDistinct(p: Plan, next: nat, slot: Slot)
    requires Invariant(p, next)
    ensures BucketTokensUnique(p[slot])
  {
    forall i, j | 0 <= i < |p[slot]| && 0 <= j < |p[slot]| && TokenOf(p[slot][i]) == TokenOf(p[slot][j])
      ensures i == j
    {
    }
  }

  /** Removing a card keeps the invariant; the token counter is untouched. */
  lemma RemovedKeepsInvariant(p: Plan, next: nat, slot: Slot, id: nat)
    requires Invariant(p, next)
    ensures Invariant(Removed(p, slot, id), next)
  {
    BucketTokensDistinct(p, next, slot);
    RemovedKeepsTokens(p, next, slot, id);
    if slot == Monthly {
      WithoutKeepsDistinct(p[slot], id, ServiceIdOf);
    }
  }

  /** Removing a card keeps every token below the counter and all tokens of
      the plan unique. */
  lemma RemovedKeepsTokens(p: Plan, next: nat, slot: Slot, id: nat)
    requires Complete(p) && TokensBelow(p, next) && PlanTokensUnique(p)
    requires BucketTokensUnique(p[slot])
    ensures TokensBelow(Removed(p, slot, id), next) && PlanTokensUnique(Removed(p, slot, id))
  {
    var q := Removed(p, slot, id);
    var w := q[slot];
    WithoutKeepsDistinct(p[slot], id, TokenOf);
    // every card left in `slot` is one that was there before
    forall k | 0 <= k < |w|
      ensures exists j :: 0 <= j < |p[slot]| && p[slot][j] == w[k]
    {
      assert w[k] in p[slot];
    }
    forall s1, k1, s2, k2 |
      s1 in q && s2 in q && 0 <= k1 < |q[s1]| && 0 <= k2 < |q[s2]| &&
      q[s1][k1].instanceId == q[s2][k2].instanceId
      ensures s1 == s2 && k1 == k2
    {
      if s1 == slot && s2 == slot {
        assert TokenOf(w[k1]) == TokenOf(w[k2]);
      }
    }
  }

  // ---------------------------------------------------------------------
  // Adding

  /** Adding to a weekday appends exactly one card, even when the same
      service is already scheduled that day. */
  lemma AddedWeekdayAppends(p: Plan, d: Day, svc: Service, token: nat)
    requires Complete(p)
    ensures Added(p, Weekday(d), svc, token)[Weekday(d)] == p[Weekday(d)] + [Entry(svc, token)]
    ensures |Added(p, Weekday(d), svc, token)[Weekday(d)]| == |p[Weekday(d)]| + 1
  {
  }

  /** Adding to the monthly bucket is a no-op exactly when the service is
      already rented; otherwise it appends one card. Either way the service
      is rented afterwards. */
  lemma AddedMonthly(p: Plan, svc: Service, token: nat)
    requires Complete(p)
    ensures HasService(p[Monthly], svc.id) <==> Added(p, Monthly, svc, token) == p
    ensures !HasService(p[Monthly], svc.id) ==>
      Added(p, Monthly, svc, token)[Monthly] == p[Monthly] + [Entry(svc, token)]
    ensures HasService(Added(p, Monthly, svc, token)[Monthly], svc.id)
  {
    var q := Added(p, Monthly, svc, token);
    if !HasService(p[Monthly], svc.id) {
      assert q[Monthly][|p[Monthly]|] == Entry(svc, token);
      assert |q[Monthly]| != |p[Monthly]|;
    }
  }

  /** Adding the same service to the monthly bucket twice is the same as
      adding it once, whatever token the second call would use. */
  lemma AddedMonthlyIdempotent(p: Plan, svc: Service, t1: nat, t2: nat)
    requires Complete(p)
    ensures Added(Added(p, Monthly, svc, t1), Monthly, svc, t2) == Added(p, Monthly, svc, t1)
  {
    AddedMonthly(p, svc, t1);
    AddedMonthly(Added(p, Monthly, svc, t1), svc, t2);
  }

  // ---------------------------------------------------------------------
  // Removing

  /** Filtering distributes over concatenation: the kept cards stay in their
      order, and each card is kept or dropped on its own token alone. */
  lemma {:induction false} WithoutAppend(a: seq<Entry>, b: seq<Entry>, id: nat)
    ensures Without(a + b, id) == Without(a, id) + Without(b, id)
  {
    if a == [] {
      assert a + b == b;
    } else {
      var head := if a[0].instanceId == id then [] else [a[0]];
      assert (a + b)[0] == a[0];
      assert (a + b)[1..] == a[1..] + b;
      calc {
        Without(a + b, id);
        head + Without(a[1..] + b, id);
        { WithoutAppend(a[1..], b, id); }
        head + (Without(a[1..], id) + Without(b, id));
        (head + Without(a[1..], id)) + Without(b, id);
        Without(a, id) + Without(b, id);
      }
    }
  }

  /** A bucket with no card carrying `id` is left as it is. */
  lemma {:induction false} WithoutAbsent(b: seq<Entry>, id: nat)
    requires forall k :: 0 <= k < |b| ==> b[k].instanceId != id
    ensures Without(b, id) == b
  {
    if b != [] {
      WithoutAbsent(b[1..], id);
    }
  }

  /** Removing twice with the same token is the same as removing once. */
  lemma WithoutIdempotent(b: seq<Entry>, id: nat)
    ensures Without(Without(b, id), id) == Without(b, id)
  {
    var r := Without(b, id);
    forall k | 0 <= k < |r| ensures r[k].instanceId != id {
      assert r[k] in r;
    }
    WithoutAbsent(r, id);
  }

  /** Removing the token of a card that no other card carries takes out
      exactly that card. */
  lemma WithoutMiddle(pre: seq<Entry>, x: Entry, post: seq<Entry>)
    requires forall j :: 0 <= j < |pre| ==> pre[j].instanceId != x.instanceId
    requires forall j :: 0 <= j < |post| ==> post[j].instanceId != x.instanceId
    ensures Without(pre + [x] + post, x.instanceId) == pre + post
  {
    var id := x.instanceId;
    WithoutAbsent(pre, id);
    WithoutAbsent(post, id);
    assert Without([x], id) == [] by {
      assert [x][1..] == [];
    }
    WithoutAppend(pre + [x], post, id);
    WithoutAppend(pre, [x], id);
    assert Without(pre + [x] + post, id) == Without(pre + [x], id) + Without(post, id);
    assert Without(pre + [x], id) == pre;
  }

  /** When tokens are distinct in the bucket, removing a card's token takes
      out exactly that card and keeps the others in order. */
  lemma RemoveExactlyOne(b: seq<Entry>, k: nat)
    requires k < |b| && BucketTokensUnique(b)
    ensures Without(b, b[k].instanceId) == b[..k] + b[k + 1..]
  {
    var pre, post := b[..k], b[k + 1..];
    forall j | 0 <= j < |b| && j != k ensures b[j].instanceId != b[k].instanceId {
      assert TokenOf(b[j]) != TokenOf(b[k]);
    }
    forall j | 0 <= j < |pre| ensures pre[j].instanceId != b[k].instanceId {
      assert pre[j] == b[j];
    }
    forall j | 0 <= j < |post| ensures post[j].instanceId != b[k].instanceId {
      assert post[j] == b[k + 1 + j];
    }
    assert b == pre + [b[k]] + post;
    WithoutMiddle(pre, b[k], post);
  }

  /** Removing twice with the same token is the same as removing once, and
      it touches no slot but the one named. */
  lemma RemovedIdempotent(p: Plan, slot: Slot, id: nat)
    requires Complete(p)
    ensures Removed(Removed(p, slot, id), slot, id) == Removed(p, slot, id)
  {
    WithoutIdempotent(p[slot], id);
  }

  /** Removing by the fresh token of an add restores the plan: the card the
      add created goes again, and an add skipped as a duplicate rental left
      nothing carrying that token. */
  lemma AddedThenRemoved(p: Plan, next: nat, slot: Slot, svc: Service)
    requires Invariant(p, next)
    ensures Removed(Added(p, slot, svc, next), slot, next) == p
  {
    assert forall k :: 0 <= k < |p[slot]| ==> p[slot][k].instanceId < next;
    AddedThenRemovedFresh(p, next, slot, svc);
  }

  /** The same, needing only that no card of the slot carries the token. */
  lemma AddedThenRemovedFresh(p: Plan, token: nat, slot: Slot, svc: Service)
    requires Complete(p)
    requires forall k :: 0 <= k < |p[slot]| ==> p[slot][k].instanceId != token
    ensures Removed(Added(p, slot, svc, token), slot, token) == p
  {
    var q := Added(p, slot, svc, token);
    assert Without(q[slot], token) == p[slot] by {
      WithoutAbsent(p[slot], token);
      if q[slot] != p[slot] {
        var e := Entry(svc, token);
        WithoutAppend(p[slot], [e], token);
        assert [e][1..] == [];
      }
    }
    assert q.Keys == p.Keys;
    assert q[slot := p[slot]] == p;
  }

  // ---------------------------------------------------------------------
  // The add dialog

  /** Every card sits in a slot of its own kind: rentals in the monthly
      bucket, per-visit services on weekdays. */
  ghost predicate CardsMatchSlots(p: Plan) {
    forall s, k :: s in p && 0 <= k < |p[s]| ==> p[s][k].service.isMonthly == (s == Monthly)
  }

  /** Adding a service the dialog offers for the slot keeps every card in a
      slot of its own kind. */
  lemma DialogAddKeepsKinds(p: Plan, services: seq<Service>, slot: Slot, svc: Service, token: nat)
    requires Complete(p) && CardsMatchSlots(p)
    requires svc in Offered(services, slot == Monthly)
    ensures CardsMatchSlots(Added(p, slot, svc, token))
  {
    assert svc.isMonthly == (slot == Monthly);
    var q: Plan := Added(p, slot, svc, token);
    forall k | 0 <= k < |q[slot]| ensures q[slot][k].service.isMonthly == (slot == Monthly) {
      if k < |p[slot]| {
        assert q[slot][k] == p[slot][k];
      }
    }
  }

  /** Removing any card keeps every card in a slot of its own kind. */
  lemma RemovedKeepsKinds(p: Plan, slot: Slot, id: nat)
    requires Complete(p) && CardsMatchSlots(p)
    ensures CardsMatchSlots(Removed(p, slot, id))
  {
    var q: Plan := Removed(p, slot, id);
    forall k | 0 <= k < |q[slot]| ensures q[slot][k].service.isMonthly == (slot == Monthly) {
      assert q[slot][k] in p[slot];
    }
  }

  /** Every card of the plan is a copy of a service from `services`. */
  ghost predicate CardsFromCatalogue(p: Plan, services: seq<Service>) {
    forall s, k :: s in p && 0 <= k < |p[s]| ==> p[s][k].service in services
  }

  /** The initial plan holds no card, so none from outside the catalogue. */
  lemma EmptyPlanFromCatalogue(services: seq<Service>)
    ensures CardsFromCatalogue(EmptyPlan(), services)
  {
  }

  /** Adding a service the dialog offers for the slot keeps every card a
      catalogue service. */
  lemma DialogAddKeepsCatalogue(p: Plan, services: seq<Service>, slot: Slot, svc: Service, token: nat)
    requires Complete(p) && CardsFromCatalogue(p, services)
    requires svc in Offered(services, slot == Monthly)
    ensures CardsFromCatalogue(Added(p, slot, svc, token), services)
  {
    var q: Plan := Added(p, slot, svc, token);
    forall k | 0 <= k < |q[slot]| ensures q[slot][k].service in services {
      if k < |p[slot]| {
        assert q[slot][k] == p[slot][k];
      }
    }
  }

  /** Removing any card keeps every card a catalogue service. */
  lemma RemovedKeepsCatalogue(p: Plan, services: seq<Service>, slot: Slot, id: nat)
    requires Complete(p) && CardsFromCatalogue(p, services)
    ensures CardsFromCatalogue(Removed(p, slot, id), services)
  {
    var q: Plan := Removed(p, slot, id);
    forall k | 0 <= k < |q[slot]| ensures q[slot][k].service in services {
      assert q[slot][k] in p[slot];
    }
  }
}
