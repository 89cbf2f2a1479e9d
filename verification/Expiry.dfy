/** Draining overdue reservations in batches, against releasing all of them at once. */
module Expiry {
  import opened Types
  import opened Ledger
  import opened Settlement
  import opened Transactions
  import opened Consistency
  import opened Lifecycle
  import opened Domain
  import Batches
  import Routing

  /** What the external providers would answer to each release, by reservation and allocation. */
  type Answers = Uuid -> nat -> Reply

  function DueIds(s: Store, now: int): set<Uuid> {
    set id | id in s.reservations && IsDue(s, id, now)
  }

  /** Every overdue reservation, seen on its own, releases without an error. */
  predicate DueSettle(s: Store, now: int, answers: Answers) {
    forall id | IsDue(s, id, now) :: Batches.AllSettle(ToRelease, USER_CONTEXT, s.providers, s.reservations[id], answers(id))
  }

  /** Internal stock never fails, so this holds whenever no external provider is involved. */
  lemma InternalOnlySettles(s: Store, now: int, answers: Answers)
    requires forall id | IsDue(s, id, now) :: InternalOnly(s.providers, s.reservations[id])
    ensures DueSettle(s, now, answers)
  {
    forall id, j | IsDue(s, id, now) && 0 <= j < |s.reservations[id].allocations|
      ensures IsInternal(s.providers, s.reservations[id].allocations[j].key.provider)
    {
      assert s.reservations[id].allocations[j] in s.reservations[id].allocations;
    }
  }

  /** One released allocation: internal stock is back at once, an external hold is as far as the provider's answer says. */
  function ExpiredAllocation(providers: Providers, a: Allocation, reply: Reply): Allocation {
    if IsInternal(providers, a.key.provider) then a.(status := AllocationStatus.Released)
    else WithOperation(ToRelease, a, ReplyOperation(USER_CONTEXT, 1, reply), ReplyStatus(ToRelease, reply))
  }

  function ExpiredAllocations(providers: Providers, allocations: seq<Allocation>, replies: nat -> Reply): seq<Allocation> {
    seq(|allocations|, i requires 0 <= i < |allocations| => ExpiredAllocation(providers, allocations[i], replies(i)))
  }

  function ExpiredRow(providers: Providers, r: Reservation, replies: nat -> Reply): Reservation {
    var t := ExpiredAllocations(providers, r.allocations, replies);
    if AllReleased(t) then r.(allocations := t, status := ReservationStatus.Expired, target := None)
    else r.(allocations := t, status := ReservationStatus.Releasing, target := Some(ReservationStatus.Expired))
  }

  /** The offer after getting back `units` from `rows` allocations. */
  function Returned(o: Offer, units: int, rows: int): Offer {
    o.(reserved := o.reserved - units, version := o.version + rows)
  }

  /** The specification: every overdue reservation is released in one sweep, and each internal offer gets back exactly
      the units they held on it, with one version step per released allocation. */
  ghost function ExpireAll(s: Store, now: int, answers: Answers): Store {
    s.(offers := (map k | k in s.offers ::
                    if IsInternal(s.providers, k.provider)
                    then Returned(s.offers[k], Total(DueHeldAt(k, now), s.reservations), Total(DueRowsAt(k, now), s.reservations))
                    else s.offers[k]),
       reservations := (map id | id in s.reservations ::
                    if Due(s.reservations[id], now) then ExpiredRow(s.providers, s.reservations[id], answers(id)) else s.reservations[id]))
  }

  // ----- Releasing holds -----

  /** Between two points of a release, each internal offer moves by the allocations released in between. */
  ghost predicate ReleasedBetween(providers: Providers, b: Books, t: Books) {
    && t.offers.Keys == b.offers.Keys
    && forall k | k in b.offers ::
         t.offers[k] ==
           if !IsInternal(providers, k.provider) then b.offers[k]
           else b.offers[k].(
             reserved := b.offers[k].reserved - (AllocationsWeight(HeldAt(k), b.allocations) - AllocationsWeight(HeldAt(k), t.allocations)),
             version := b.offers[k].version + (AllocationsWeight(RowsAt(k), b.allocations) - AllocationsWeight(RowsAt(k), t.allocations)))
  }

  lemma ReleaseOneEffect(c: Context, providers: Providers, b: Books, i: nat, reply: Reply)
    requires i < |b.allocations| && b.allocations[i].status.Held?
    requires SettleOne(ToRelease, c, ProviderRow(providers, b.allocations[i].key.provider), b.offers, b.allocations[i], reply).Commit?
    ensures var s := SettleOne(ToRelease, c, ProviderRow(providers, b.allocations[i].key.provider), b.offers, b.allocations[i], reply).value;
            ReleasedBetween(providers, b, Books(s.offers, b.allocations[i := s.allocation]))
  {
    var s := SettleOne(ToRelease, c, ProviderRow(providers, b.allocations[i].key.provider), b.offers, b.allocations[i], reply).value;
    forall k: OfferKey | IsInternal(providers, k.provider)
      ensures AllocationsWeight(HeldAt(k), b.allocations) - AllocationsWeight(HeldAt(k), b.allocations[i := s.allocation])
              == if b.allocations[i].key == k then b.allocations[i].quantity else 0
      ensures AllocationsWeight(RowsAt(k), b.allocations) - AllocationsWeight(RowsAt(k), b.allocations[i := s.allocation])
              == if b.allocations[i].key == k then 1 else 0
    {
      UpdateAllocation(HeldAt(k), b.allocations, i, s.allocation);
      UpdateAllocation(RowsAt(k), b.allocations, i, s.allocation);
    }
  }

  lemma ReleasedBetweenComposes(providers: Providers, b: Books, m: Books, t: Books)
    requires ReleasedBetween(providers, b, m) && ReleasedBetween(providers, m, t)
    ensures ReleasedBetween(providers, b, t)
  {
    hide AllocationsWeight;
  }

  lemma {:induction false} ReleaseFromEffect(c: Context, providers: Providers, b: Books, i: nat, replies: nat -> Reply)
    requires i <= |b.allocations|
    requires forall j | i <= j < |b.allocations| :: b.allocations[j].status.Held?
    requires SettleFrom(ToRelease, c, providers, b, i, replies).Commit?
    ensures ReleasedBetween(providers, b, SettleFrom(ToRelease, c, providers, b, i, replies).value)
    decreases |b.allocations| - i
  {
    if i < |b.allocations| {
      hide SettleOne, ReleasedBetween;
      var a := b.allocations[i];
      ReleaseOneEffect(c, providers, b, i, replies(i));
      var s := SettleOne(ToRelease, c, ProviderRow(providers, a.key.provider), b.offers, a, replies(i)).value;
      var next := Books(s.offers, b.allocations[i := s.allocation]);
      ReleaseFromEffect(c, providers, next, i + 1, replies);
      ReleasedBetweenComposes(providers, b, next, SettleFrom(ToRelease, c, providers, next, i + 1, replies).value);
    }
  }

  lemma {:induction false} ReleasedWeighNothing(providers: Providers, allocations: seq<Allocation>, k: OfferKey)
    requires IsInternal(providers, k.provider)
    requires forall a | a in allocations && IsInternal(providers, a.key.provider) :: a.status.Released?
    ensures AllocationsWeight(HeldAt(k), allocations) == 0 && AllocationsWeight(RowsAt(k), allocations) == 0
  {
    if allocations != [] {
      assert allocations[0] in allocations;
      assert forall a | a in allocations[1..] :: a in allocations;
      ReleasedWeighNothing(providers, allocations[1..], k);
    }
  }

  /** Each internal offer gets back what one reservation held. */
  ghost predicate OffersReturned(providers: Providers, before: Offers, r: Reservation, after: Offers) {
    && after.Keys == before.Keys
    && forall k | k in before ::
         after[k] == if !IsInternal(providers, k.provider) then before[k]
                     else Returned(before[k], AllocationsWeight(HeldAt(k), r.allocations), AllocationsWeight(RowsAt(k), r.allocations))
  }

  /** The two sets of answers agree where somebody is asked. */
  predicate SameAnswers(providers: Providers, r: Reservation, one: nat -> Reply, other: nat -> Reply) {
    forall j | 0 <= j < |r.allocations| :: !IsInternal(providers, r.allocations[j].key.provider) ==> one(j) == other(j)
  }

  lemma ReleasedAllocation(p: Provider, a: Allocation, reply: Reply, b: Allocation)
    requires FreshlyHeld(a) && SettledTo(ToRelease, USER_CONTEXT, p, a, reply, b)
    ensures p.kind.Internal? ==> b == a.(status := AllocationStatus.Released)
    ensures p.kind.External? ==> b == WithOperation(ToRelease, a, ReplyOperation(USER_CONTEXT, 1, reply), ReplyStatus(ToRelease, reply))
  {
  }

  lemma PendingIsFresh(s: Store, id: Uuid)
    requires Live(s) && id in s.reservations && s.reservations[id].status.Pending?
    ensures forall j | 0 <= j < |s.reservations[id].allocations| :: FreshlyHeld(s.reservations[id].allocations[j])
  {
    assert Tabled(s.providers, s.reservations[id]);
    forall j | 0 <= j < |s.reservations[id].allocations| ensures FreshlyHeld(s.reservations[id].allocations[j]) {
      assert s.reservations[id].allocations[j] in s.reservations[id].allocations;
    }
  }

  /** The books after releasing a pending reservation that settles. */
  lemma PendingRelease(s: Store, id: Uuid, batch: nat -> Reply, replies: nat -> Reply)
    requires Live(s) && id in s.reservations && s.reservations[id].status.Pending?
    requires Batches.AllSettle(ToRelease, USER_CONTEXT, s.providers, s.reservations[id], replies)
    requires SameAnswers(s.providers, s.reservations[id], batch, replies)
    ensures var r := s.reservations[id];
            var x := SettleFrom(ToRelease, USER_CONTEXT, s.providers, Books(s.offers, r.allocations), 0, batch);
            && x.Commit? && ReleasedBetween(s.providers, Books(s.offers, r.allocations), x.value)
            && x.value.allocations == ExpiredAllocations(s.providers, r.allocations, replies)
  {
    var r := s.reservations[id];
    var b := Books(s.offers, r.allocations);
    PendingIsFresh(s, id);
    assert Batches.AllSettle(ToRelease, USER_CONTEXT, s.providers, r, batch);
    forall a | a in r.allocations ensures FreshlyHeld(a) { }
    Batches.SettleRowCommitsIff(ToRelease, USER_CONTEXT, s, id, batch);
    hide SettleFrom, SettledTo, Live, ReleasedBetween, Batches.AllSettle;
    ReleaseFromEffect(USER_CONTEXT, s.providers, b, 0, batch);
    SettleFromPointwise(ToRelease, USER_CONTEXT, s.providers, b, 0, batch);
    var t := SettleFrom(ToRelease, USER_CONTEXT, s.providers, b, 0, batch).value;
    forall j | 0 <= j < |r.allocations| ensures t.allocations[j] == ExpiredAllocation(s.providers, r.allocations[j], replies(j)) {
      ReleasedAllocation(ProviderRow(s.providers, r.allocations[j].key.provider), r.allocations[j], batch(j), t.allocations[j]);
    }
  }

  lemma ReleasedBetweenReturns(providers: Providers, before: Offers, r: Reservation, t: Books)
    requires ReleasedBetween(providers, Books(before, r.allocations), t)
    requires forall a | a in t.allocations && IsInternal(providers, a.key.provider) :: a.status.Released?
    ensures OffersReturned(providers, before, r, t.offers)
  {
    forall k: OfferKey | IsInternal(providers, k.provider)
      ensures AllocationsWeight(HeldAt(k), t.allocations) == 0 && AllocationsWeight(RowsAt(k), t.allocations) == 0
    {
      ReleasedWeighNothing(providers, t.allocations, k);
    }
  }

  lemma ExpireOneEffect(s: Store, id: Uuid, batch: nat -> Reply, replies: nat -> Reply)
    requires Live(s) && id in s.reservations && s.reservations[id].status.Pending?
    requires Batches.AllSettle(ToRelease, USER_CONTEXT, s.providers, s.reservations[id], replies)
    requires SameAnswers(s.providers, s.reservations[id], batch, replies)
    ensures var x := ReleaseRow(s, id, ReservationStatus.Expired, USER_CONTEXT, batch);
            x.Commit? && OneExpired(s, id, x.value, replies)
  {
    PendingRelease(s, id, batch, replies);
    hide SettleFrom, Live, ReleasedBetween, Batches.AllSettle;
    var r := s.reservations[id];
    ReleasedBetweenReturns(s.providers, s.offers, r, SettleFrom(ToRelease, USER_CONTEXT, s.providers, Books(s.offers, r.allocations), 0, batch).value);
  }

  lemma ExpireOneLive(s: Store, id: Uuid, replies: nat -> Reply)
    requires Live(s) && id in s.reservations && s.reservations[id].status.Pending?
    requires ReleaseRow(s, id, ReservationStatus.Expired, USER_CONTEXT, replies).Commit?
    ensures Live(ReleaseRow(s, id, ReservationStatus.Expired, USER_CONTEXT, replies).value)
  {
    assert Tabled(s.providers, s.reservations[id]);
    ReleaseRowLive(s, id, ReservationStatus.Expired, USER_CONTEXT, replies);
  }

  // ----- One row against the sweep -----

  /** `t` is `s` with one due row expired. */
  ghost predicate OneExpired(s: Store, id: Uuid, t: Store, replies: nat -> Reply)
    requires id in s.reservations
  {
    && OffersReturned(s.providers, s.offers, s.reservations[id], t.offers)
    && t == s.(offers := t.offers, reservations := s.reservations[id := ExpiredRow(s.providers, s.reservations[id], replies)])
  }

  lemma DueTotalsFall(s: Store, id: Uuid, now: int, t: Store, replies: nat -> Reply, k: OfferKey)
    requires IsDue(s, id, now) && OneExpired(s, id, t, replies)
    ensures Total(DueHeldAt(k, now), t.reservations) == Total(DueHeldAt(k, now), s.reservations) - AllocationsWeight(HeldAt(k), s.reservations[id].allocations)
    ensures Total(DueRowsAt(k, now), t.reservations) == Total(DueRowsAt(k, now), s.reservations) - AllocationsWeight(RowsAt(k), s.reservations[id].allocations)
  {
    TotalUpdate(DueHeldAt(k, now), s.reservations, id, ExpiredRow(s.providers, s.reservations[id], replies));
    TotalUpdate(DueRowsAt(k, now), s.reservations, id, ExpiredRow(s.providers, s.reservations[id], replies));
  }

  lemma ReturnedTwice(o: Offer, units: int, rows: int, moreUnits: int, moreRows: int)
    ensures Returned(Returned(o, units, rows), moreUnits, moreRows) == Returned(o, units + moreUnits, rows + moreRows)
  {
  }

  lemma SweepSameOffers(s: Store, id: Uuid, now: int, t: Store, answers: Answers)
    requires IsDue(s, id, now) && OneExpired(s, id, t, answers(id))
    ensures ExpireAll(t, now, answers).offers == ExpireAll(s, now, answers).offers
  {
    hide Total, AllocationsWeight, ExpiredRow;
    forall k | k in s.offers && IsInternal(s.providers, k.provider)
      ensures Returned(t.offers[k], Total(DueHeldAt(k, now), t.reservations), Total(DueRowsAt(k, now), t.reservations))
           == Returned(s.offers[k], Total(DueHeldAt(k, now), s.reservations), Total(DueRowsAt(k, now), s.reservations))
    {
      DueTotalsFall(s, id, now, t, answers(id), k);
      ReturnedTwice(s.offers[k], AllocationsWeight(HeldAt(k), s.reservations[id].allocations),
                    AllocationsWeight(RowsAt(k), s.reservations[id].allocations),
                    Total(DueHeldAt(k, now), t.reservations), Total(DueRowsAt(k, now), t.reservations));
    }
  }

  lemma SweepSameRows(s: Store, id: Uuid, now: int, t: Store, answers: Answers)
    requires IsDue(s, id, now) && OneExpired(s, id, t, answers(id))
    ensures ExpireAll(t, now, answers).reservations == ExpireAll(s, now, answers).reservations
    ensures DueIds(t, now) == DueIds(s, now) - {id}
    ensures SameDue(s, t, now)
  {
    hide Total, AllocationsWeight, ExpiredAllocations, OffersReturned;
    var a, b := ExpireAll(s, now, answers).reservations, ExpireAll(t, now, answers).reservations;
    assert a.Keys == b.Keys;
    forall x | x in a ensures a[x] == b[x] { }
  }

  /** Expiring one due row first does not change what the sweep leaves. */
  lemma SweepAbsorbsRow(s: Store, id: Uuid, now: int, t: Store, answers: Answers)
    requires IsDue(s, id, now) && OneExpired(s, id, t, answers(id))
    ensures ExpireAll(t, now, answers) == ExpireAll(s, now, answers)
  {
    hide Total, ExpiredRow;
    SweepSameOffers(s, id, now, t, answers);
    SweepSameRows(s, id, now, t, answers);
  }

  /** The rows that are still due are as they were. */
  predicate SameDue(s: Store, t: Store, now: int) {
    t.providers == s.providers
    && forall id | IsDue(t, id, now) :: id in s.reservations && t.reservations[id] == s.reservations[id]
  }

  /** What a prefix of the drain keeps. */
  ghost predicate OnTheWay(s: Store, t: Store, now: int, answers: Answers, done: set<Uuid>) {
    && Live(t) && DueSettle(t, now, answers) && SameDue(s, t, now)
    && ExpireAll(t, now, answers) == ExpireAll(s, now, answers)
    && DueIds(t, now) == DueIds(s, now) - done
  }

  /** The batch meets, at the rows that are due, the answers that the sweep is about. */
  ghost predicate Told(s: Store, now: int, batch: Answers, answers: Answers) {
    forall id | IsDue(s, id, now) :: SameAnswers(s.providers, s.reservations[id], batch(id), answers(id))
  }

  lemma StillTold(s: Store, t: Store, now: int, batch: Answers, answers: Answers)
    requires SameDue(s, t, now) && Told(s, now, batch, answers)
    ensures Told(t, now, batch, answers)
  {
    forall id | IsDue(t, id, now) ensures SameAnswers(t.providers, t.reservations[id], batch(id), answers(id)) { assert IsDue(s, id, now); }
  }

  lemma StillSettle(s: Store, t: Store, now: int, answers: Answers)
    requires SameDue(s, t, now) && DueSettle(s, now, answers)
    ensures DueSettle(t, now, answers)
  {
    hide Batches.AllSettle;
    forall id | IsDue(t, id, now) ensures Batches.AllSettle(ToRelease, USER_CONTEXT, t.providers, t.reservations[id], answers(id)) {
      assert IsDue(s, id, now);
    }
  }

  lemma RowAgainstSweep(s: Store, id: Uuid, now: int, batch: Answers, answers: Answers)
    requires Live(s) && DueSettle(s, now, answers) && Told(s, now, batch, answers) && IsDue(s, id, now)
    ensures var x := ReleaseRow(s, id, ReservationStatus.Expired, USER_CONTEXT, batch(id));
            x.Commit? && OnTheWay(s, x.value, now, answers, {id}) && x.value.reservations.Keys == s.reservations.Keys
  {
    ExpireOneEffect(s, id, batch(id), answers(id));
    ExpireOneLive(s, id, batch(id));
    var t := ReleaseRow(s, id, ReservationStatus.Expired, USER_CONTEXT, batch(id)).value;
    SweepAbsorbsRow(s, id, now, t, answers);
    SweepSameRows(s, id, now, t, answers);
    StillSettle(s, t, now, answers);
    hide ReleaseRow, Live, ExpireAll, OffersReturned, ExpiredRow, DueSettle, Told, DueIds, SameDue;
  }

  function Members(rows: seq<Uuid>): set<Uuid> {
    set id | id in rows
  }

  lemma ReleaseRowsFirst(s: Store, rows: seq<Uuid>, terminal: ReservationStatus, replies: Uuid -> nat -> Reply, t: Store)
    requires rows != [] && forall id | id in rows :: id in s.reservations && id in t.reservations
    requires ReleaseRow(s, rows[0], terminal, USER_CONTEXT, replies(rows[0])) == Commit(t)
    ensures ReleaseRows(s, rows, terminal, replies) == ReleaseRows(t, rows[1..], terminal, replies)
  {
  }

  lemma OnTheWayComposes(s: Store, t: Store, u: Store, now: int, answers: Answers, a: set<Uuid>, b: set<Uuid>)
    requires OnTheWay(s, t, now, answers, a) && OnTheWay(t, u, now, answers, b)
    ensures OnTheWay(s, u, now, answers, a + b)
  {
  }

  lemma StillDue(s: Store, t: Store, now: int, answers: Answers, id: Uuid, x: Uuid)
    requires OnTheWay(s, t, now, answers, {id}) && IsDue(s, x, now) && x != id
    ensures IsDue(t, x, now)
  {
    assert x in DueIds(s, now) - {id};
    assert x in DueIds(t, now);
  }

  lemma RestStillDue(s: Store, t: Store, rows: seq<Uuid>, now: int, answers: Answers)
    requires rows != [] && Routing.Distinct(rows) && OnTheWay(s, t, now, answers, {rows[0]})
    requires forall id | id in rows :: IsDue(s, id, now)
    ensures Routing.Distinct(rows[1..]) && forall id | id in rows[1..] :: IsDue(t, id, now)
  {
    hide OnTheWay, IsDue;
    forall x | x in rows[1..] ensures IsDue(t, x, now) {
      assert x in rows && x != rows[0];
      StillDue(s, t, now, answers, rows[0], x);
    }
  }

  lemma MembersFirst(rows: seq<Uuid>)
    requires rows != []
    ensures Members(rows) == {rows[0]} + Members(rows[1..])
  {
  }

  lemma {:induction false} BatchAgainstSweep(s: Store, rows: seq<Uuid>, now: int, batch: Answers, answers: Answers)
    requires Live(s) && DueSettle(s, now, answers) && Told(s, now, batch, answers) && Routing.Distinct(rows)
    requires forall id | id in rows :: IsDue(s, id, now)
    ensures var x := ReleaseRows(s, rows, ReservationStatus.Expired, batch);
            x.Commit? && OnTheWay(s, x.value, now, answers, Members(rows))
    decreases |rows|
  {
    if rows == [] {
      assert DueIds(s, now) == DueIds(s, now) - Members(rows);
    } else {
      hide ReleaseRow, ReleaseRows, Live, DueSettle, Told, ExpireAll, DueIds, SameDue, Routing.Distinct, Members;
      var id := rows[0];
      assert id in rows;
      RowAgainstSweep(s, id, now, batch, answers);
      var t := ReleaseRow(s, id, ReservationStatus.Expired, USER_CONTEXT, batch(id)).value;
      StillTold(s, t, now, batch, answers);
      ReleaseRowsFirst(s, rows, ReservationStatus.Expired, batch, t);
      RestStillDue(s, t, rows, now, answers);
      BatchAgainstSweep(t, rows[1..], now, batch, answers);
      hide OnTheWay;
      OnTheWayComposes(s, t, ReleaseRows(t, rows[1..], ReservationStatus.Expired, batch).value, now, answers, {id}, Members(rows[1..]));
      MembersFirst(rows);
    }
  }

  lemma {:induction false} MembersCount(rows: seq<Uuid>)
    requires Routing.Distinct(rows)
    ensures |Members(rows)| == |rows|
  {
    if rows != [] {
      MembersCount(rows[1..]);
      MembersFirst(rows);
      assert rows[0] !in Members(rows[1..]);
    }
  }

  lemma SubsetCount(a: set<Uuid>, b: set<Uuid>)
    requires b <= a
    ensures |a - b| == |a| - |b|
  {
  }

  /** One batch, whatever rows other transactions have locked: it commits, takes exactly its rows off the due ones,
      does not change what the sweep leaves, and when it is short only locked rows are still due. */
  lemma BatchStep(s: Store, now: int, limit: nat, locked: set<Uuid>, batch: Answers, answers: Answers)
    requires Live(s) && DueSettle(s, now, answers) && Told(s, now, batch, answers)
    ensures var rows := DueRows(s, now, limit, locked);
            var x := ExpireBatch(s, now, limit, locked, batch);
            && x.Commit? && OnTheWay(s, x.value, now, answers, Members(rows))
            && |DueIds(x.value, now)| + |rows| == |DueIds(s, now)|
            && (|rows| < limit ==> DueIds(x.value, now) <= locked)
  {
    DueRowsAreDue(s, now, limit, locked);
    var rows := DueRows(s, now, limit, locked);
    BatchAgainstSweep(s, rows, now, batch, answers);
    hide DueRows, Live, DueSettle, Told, SameDue, ExpireAll, ReleaseRows;
    MembersCount(rows);
    forall id | id in Members(rows) ensures id in DueIds(s, now) { assert IsDue(s, id, now); }
    SubsetCount(DueIds(s, now), Members(rows));
  }

  lemma ToldItself(s: Store, now: int, answers: Answers)
    ensures Told(s, now, answers, answers)
  {
  }

  /** The end of a drain: what it left, and which batch was the last. */
  datatype Drained = Drained(store: Store, last: nat)

  /** The worker's inner loop at a fixed clock: another batch follows every full one. The rows that are locked by
      other transactions may be different ones at each batch. */
  ghost function Drain(s: Store, now: int, limit: nat, locked: nat -> set<Uuid>, n: nat, answers: Answers): Tx<Drained>
    requires Live(s) && DueSettle(s, now, answers) && limit > 0
    decreases |DueIds(s, now)|
  {
    ToldItself(s, now, answers);
    BatchStep(s, now, limit, locked(n), answers, answers);
    match ExpireBatch(s, now, limit, locked(n), answers)
    case Raise(e) => Raise(e)
    case Commit(t) =>
      if |DueRows(s, now, limit, locked(n))| < limit then Commit(Drained(t, n)) else Drain(t, now, limit, locked, n + 1, answers)
  }

  lemma SweepOfNothing(s: Store, now: int, answers: Answers)
    requires DueIds(s, now) == {}
    ensures ExpireAll(s, now, answers) == s
  {
    assert forall id | id in s.reservations :: id !in DueIds(s, now) && !Due(s.reservations[id], now);
    forall k ensures Total(DueHeldAt(k, now), s.reservations) == 0 && Total(DueRowsAt(k, now), s.reservations) == 0 {
      TotalZero(DueHeldAt(k, now), s.reservations);
      TotalZero(DueRowsAt(k, now), s.reservations);
    }
    assert ExpireAll(s, now, answers).offers == s.offers;
    assert ExpireAll(s, now, answers).reservations == s.reservations;
  }

  lemma DrainStep(s: Store, now: int, limit: nat, locked: nat -> set<Uuid>, n: nat, answers: Answers) returns (t: Store)
    requires Live(s) && DueSettle(s, now, answers) && limit > 0
    ensures Live(t) && DueSettle(t, now, answers) && ExpireAll(t, now, answers) == ExpireAll(s, now, answers)
    ensures DueIds(t, now) <= DueIds(s, now)
    ensures var x := Drain(s, now, limit, locked, n, answers);
            || (x == Commit(Drained(t, n)) && DueIds(t, now) <= locked(n))
            || (x == Drain(t, now, limit, locked, n + 1, answers) && |DueIds(t, now)| < |DueIds(s, now)|)
  {
    ToldItself(s, now, answers);
    BatchStep(s, now, limit, locked(n), answers, answers);
    DueRowsAreDue(s, now, limit, locked(n));
    t := ExpireBatch(s, now, limit, locked(n), answers).value;
    hide ExpireBatch, DueRows, ExpireAll, DueIds, Live, DueSettle, IsDue, Routing.Distinct;
  }

  /** A drain that starts with batch `n` still has the same sweep to finish, and leaves only rows due that its last
      batch found locked. */
  lemma {:induction false} DrainLeavesLocked(s: Store, now: int, limit: nat, locked: nat -> set<Uuid>, n: nat, answers: Answers)
    requires Live(s) && DueSettle(s, now, answers) && limit > 0
    ensures var x := Drain(s, now, limit, locked, n, answers);
            && x.Commit? && x.value.last >= n
            && ExpireAll(x.value.store, now, answers) == ExpireAll(s, now, answers)
            && DueIds(x.value.store, now) <= DueIds(s, now)
            && DueIds(x.value.store, now) <= locked(x.value.last)
    decreases |DueIds(s, now)|
  {
    var t := DrainStep(s, now, limit, locked, n, answers);
    hide ExpireAll, DueIds, Live, DueSettle, Drain;
    if Drain(s, now, limit, locked, n, answers) == Drain(t, now, limit, locked, n + 1, answers) && |DueIds(t, now)| < |DueIds(s, now)| {
      DrainLeavesLocked(t, now, limit, locked, n + 1, answers);
    }
  }

  /** The batched drain refines the sweep: whatever the batch size, it commits, and the only rows it leaves due are
      those its last batch found locked. If there were none, it has ended in the same offers (versions included),
      allocations and statuses as the sweep. */
  lemma DrainRefinesSweep(s: Store, now: int, limit: nat, locked: nat -> set<Uuid>, answers: Answers)
    requires Live(s) && DueSettle(s, now, answers) && limit > 0
    ensures var x := Drain(s, now, limit, locked, 0, answers);
            && x.Commit?
            && (forall id | IsDue(x.value.store, id, now) :: IsDue(s, id, now) && id in locked(x.value.last))
            && ((forall id | id in locked(x.value.last) :: !IsDue(s, id, now)) ==> x.value.store == ExpireAll(s, now, answers))
  {
    DrainLeavesLocked(s, now, limit, locked, 0, answers);
    var x := Drain(s, now, limit, locked, 0, answers).value;
    forall id | IsDue(x.store, id, now) ensures IsDue(s, id, now) && id in locked(x.last) { assert id in DueIds(x.store, now); }
    if forall id | id in locked(x.last) :: !IsDue(s, id, now) {
      forall id ensures id !in DueIds(x.store, now) { assert id in DueIds(x.store, now) <==> IsDue(x.store, id, now); }
      SweepOfNothing(x.store, now, answers);
    }
  }
}
