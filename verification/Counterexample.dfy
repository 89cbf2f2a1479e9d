/** Runs that go wrong: a caller leaves the lifecycle and takes another customer's stock, and an operator removes an
    offer with a live hold. */
module Counterexample {
  import opened Types
  import opened Ledger
  import opened Rows
  import opened Settlement
  import opened Transactions
  import opened Lifecycle
  import Boundary
  import Fingerprint
  import Routing

  const WAREHOUSE := Provider(Internal, true, false, false, true, true, true)
  const SHELF := OfferKey(1, 1)

  function Claim(id: Uuid, user: Uuid, status: ReservationStatus, claim: AllocationStatus): Reservation {
    var items := [Item(1, 1, 1)];
    Reservation(id, user, "key", Fingerprint.Canonical(items), items, 0, 10, status, None,
                [Allocation(SHELF, 1, claim, None, None, None)])
  }

  /** Reservation 1 has expired and returned its unit; reservation 2 still holds one. */
  const AFTER_EXPIRY := Store(
    {1}, map[1 := WAREHOUSE], map[SHELF := Offer(5, 1, 4, 0, None)],
    map[1 := Claim(1, 7, ReservationStatus.Expired, AllocationStatus.Released),
        2 := Claim(2, 8, ReservationStatus.Pending, AllocationStatus.Held)],
    [])

  lemma SingleInternalSettlement(d: Direction, c: Context, providers: Providers, offers: Offers, a: Allocation, replies: nat -> Reply)
    requires IsInternal(providers, a.key.provider) && a.status != DoneStatus(d)
    ensures SettleFrom(d, c, providers, Books(offers, [a]), 0, replies)
            == match SettleStock(d, offers, a)
               case None => Raise(Refusal(d, Internal))
               case Some(next) => Commit(Books(next, [a.(status := DoneStatus(d))]))
  {
    if SettleStock(d, offers, a).Some? {
      var done := Books(SettleStock(d, offers, a).value, [a.(status := DoneStatus(d))]);
      assert [a][0 := a.(status := DoneStatus(d))] == done.allocations;
      assert SettleFrom(d, c, providers, done, 1, replies) == Commit(done);
    }
  }

  /** The store after the expired reservation has been confirmed all the same. */
  lemma ExpiredIsConfirmed(replies: nat -> Reply)
    ensures var x := Confirm(AFTER_EXPIRY, 1, 7, replies);
            && x.Commit?
            && x.value.offers == map[SHELF := Offer(4, 0, 5, 0, None)]
            && x.value.providers == AFTER_EXPIRY.providers
            && 2 in x.value.reservations && x.value.reservations[2] == AFTER_EXPIRY.reservations[2]
  {
    var s := AFTER_EXPIRY;
    SingleInternalSettlement(ToConfirm, USER_CONTEXT, s.providers, s.offers, s.reservations[1].allocations[0], replies);
    assert s.offers[SHELF := Offer(4, 0, 5, 0, None)] == map[SHELF := Offer(4, 0, 5, 0, None)];
  }

  lemma SecondIsRefused(replies: nat -> Reply)
    requires Confirm(AFTER_EXPIRY, 1, 7, replies).Commit?
    ensures Confirm(Confirm(AFTER_EXPIRY, 1, 7, replies).value, 2, 8, replies) == Raise(InventoryConfirmationError(Internal))
  {
    ExpiredIsConfirmed(replies);
    var t := Confirm(AFTER_EXPIRY, 1, 7, replies).value;
    SingleInternalSettlement(ToConfirm, USER_CONTEXT, t.providers, t.offers, t.reservations[2].allocations[0], replies);
  }

  lemma ExpiredConfirmBreaksLedger(replies: nat -> Reply)
    requires Live(AFTER_EXPIRY) && Confirm(AFTER_EXPIRY, 1, 7, replies).Commit?
    ensures !Conserved(Confirm(AFTER_EXPIRY, 1, 7, replies).value)
  {
    Boundary.ConfirmConservesIff(AFTER_EXPIRY, 1, 7, replies);
    assert AFTER_EXPIRY.reservations[1].allocations[0] in AFTER_EXPIRY.reservations[1].allocations;
  }

  // ----- A run that gets there -----

  type Holds = nat -> Uuid -> Routing.CandidateReply

  function Shelved(reserved: int, version: int): Offers {
    map[SHELF := Offer(5, reserved, version, 0, None)]
  }

  function Request(id: Uuid, user: Uuid): CreateRequest {
    CreateRequest(id, user, "key", [Item(1, 1, 1)], 0, 10)
  }

  lemma OnlyShelfIsCandidate(p: Provider, reserved: int, version: int)
    requires p.enabled && p.hold && (p.kind.Internal? || p.http)
    ensures Routing.Candidates(map[1 := p], Shelved(reserved, version), SHELF) == [1]
  {
    var keys := Routing.CandidateKeys(map[1 := p], Shelved(reserved, version), SHELF);
    assert keys == {RowKey(0, 1)};
    OrderByRows(keys);
    OnlyOneOrder(OrderBy(keys), [RowKey(0, 1)]);
    assert Ids([RowKey(0, 1)]) == [1];
  }

  lemma ShelfHolds(reserved: int, version: int, replies: Uuid -> Routing.CandidateReply)
    requires reserved < 5
    ensures var r := Routing.RouteItem(map[1 := WAREHOUSE], Shelved(reserved, version), Item(1, 1, 1), replies);
            r.offers == Shelved(reserved + 1, version + 1) && r.end == Routing.RoutedTo(Routing.ProviderHold(1, None))
  {
    OnlyShelfIsCandidate(WAREHOUSE, reserved, version);
  }

  lemma ItemHeld(reserved: int, version: int, holds: Holds)
    requires reserved < 5
    ensures HoldItems(map[1 := WAREHOUSE], Shelved(reserved, version), [Item(1, 1, 1)], 0, [], holds)
            == Commit(Holding(Shelved(reserved + 1, version + 1), [Allocation(SHELF, 1, AllocationStatus.Held, None, None, None)], true))
  {
    ShelfHolds(reserved, version, holds(0));
    var r := Routing.RouteItem(map[1 := WAREHOUSE], Shelved(reserved, version), Item(1, 1, 1), holds(0));
    HoldItemsTurn(map[1 := WAREHOUSE], Shelved(reserved, version), [Item(1, 1, 1)], 0, [], holds, r);
    var none: seq<Allocation> := [];
    var held := none + [HeldAllocation([Item(1, 1, 1)][0], r.end.hold)];
    assert held == [Allocation(SHELF, 1, AllocationStatus.Held, None, None, None)];
    assert HoldItems(map[1 := WAREHOUSE], r.offers, [Item(1, 1, 1)], 1, held, holds) == Commit(Holding(r.offers, held, true));
  }

  function OnShelf(reserved: int, version: int, reservations: Reservations): Store {
    Store({1}, map[1 := WAREHOUSE], Shelved(reserved, version), reservations, [])
  }

  lemma ClaimCreated(id: Uuid, user: Uuid, reserved: int, version: int, rs: Reservations, holds: Holds, releases: nat -> Reply)
    requires reserved < 5 && id !in rs && !KeyTaken(rs, user, "key")
    ensures Create(OnShelf(reserved, version, rs), Request(id, user), holds, releases).store
            == OnShelf(reserved + 1, version + 1, rs[id := Claim(id, user, ReservationStatus.Pending, AllocationStatus.Held)])
  {
    ItemHeld(reserved, version, holds);
    hide HoldItems, Fingerprint.Canonical;
    var s := OnShelf(reserved, version, rs);
    assert InsertError(s, Draft(Request(id, user))).None?;
  }

  const FIRST := map[1 := Claim(1, 7, ReservationStatus.Pending, AllocationStatus.Held)]
  const BOTH := FIRST[2 := Claim(2, 8, ReservationStatus.Pending, AllocationStatus.Held)]

  lemma FirstIsDue()
    ensures DueRows(OnShelf(2, 3, BOTH), 10, 1, {}) == [1]
  {
    hide Fingerprint.Canonical;
    var keys := DueKeys(OnShelf(2, 3, BOTH), 10, {});
    assert RowKey(10, 1) in keys by { assert IsDue(OnShelf(2, 3, BOTH), 1, 10); }
    assert RowKey(10, 2) in keys by { assert IsDue(OnShelf(2, 3, BOTH), 2, 10); }
    assert keys == {RowKey(10, 1), RowKey(10, 2)};
    OrderByRows(keys);
    OnlyOneOrder(OrderBy(keys), [RowKey(10, 1), RowKey(10, 2)]);
    assert Ids([RowKey(10, 1), RowKey(10, 2)]) == [1, 2];
  }

  lemma FirstExpires(replies: Uuid -> nat -> Reply)
    ensures ExpireBatch(OnShelf(2, 3, BOTH), 10, 1, {}, replies) == Commit(AFTER_EXPIRY)
  {
    FirstIsDue();
    hide Fingerprint.Canonical, DueRows, SettleFrom;
    var s := OnShelf(2, 3, BOTH);
    SingleInternalSettlement(ToRelease, USER_CONTEXT, s.providers, s.offers, s.reservations[1].allocations[0], replies(1));
    assert s.offers[SHELF := Offer(5, 1, 4, 0, None)] == AFTER_EXPIRY.offers;
    assert BOTH[1 := Claim(1, 7, ReservationStatus.Expired, AllocationStatus.Released)] == AFTER_EXPIRY.reservations;
    assert ReleaseRow(s, 1, ReservationStatus.Expired, USER_CONTEXT, replies(1)) == Commit(AFTER_EXPIRY);
    assert ReleaseRows(s, [1], ReservationStatus.Expired, replies) == Commit(AFTER_EXPIRY);
  }

  function Journey(holds: Holds, releases: nat -> Reply, batch: Uuid -> nat -> Reply): seq<Step> {
    [ConfigureStep({1}, map[1 := WAREHOUSE]), SetLevelStep(SHELF, 5, 0, None),
     CreateStep(Request(1, 7), holds, releases), CreateStep(Request(2, 8), holds, releases),
     ExpireStep(10, 1, {}, batch)]
  }

  lemma StepThenRest(s: Store, steps: seq<Step>, t: Store)
    requires steps != [] && Possible(s, steps[0]) && Respects(s, steps[0]) && Apply(s, steps[0]) == t
    requires LifecycleRun(t, steps[1..]) && ValidRun(t, steps[1..])
    ensures LifecycleRun(s, steps) && ValidRun(s, steps) && Run(s, steps) == Run(t, steps[1..])
  {
  }

  lemma FirstReserves(holds: Holds, releases: nat -> Reply)
    ensures Apply(OnShelf(0, 1, map[]), CreateStep(Request(1, 7), holds, releases)) == OnShelf(1, 2, FIRST)
  {
    ClaimCreated(1, 7, 0, 1, map[], holds, releases);
    hide Create;
  }

  lemma SecondReserves(holds: Holds, releases: nat -> Reply)
    ensures Apply(OnShelf(1, 2, FIRST), CreateStep(Request(2, 8), holds, releases)) == OnShelf(2, 3, BOTH)
  {
    ClaimCreated(2, 8, 1, 2, FIRST, holds, releases);
    hide Create;
  }

  lemma WorkerExpires(batch: Uuid -> nat -> Reply)
    ensures Apply(OnShelf(2, 3, BOTH), ExpireStep(10, 1, {}, batch)) == AFTER_EXPIRY
  {
    FirstExpires(batch);
    hide ExpireBatch;
  }

  lemma ReserveAndExpire(holds: Holds, releases: nat -> Reply, batch: Uuid -> nat -> Reply)
    ensures var s, steps := OnShelf(0, 1, map[]), Journey(holds, releases, batch)[2..];
            LifecycleRun(s, steps) && ValidRun(s, steps) && Run(s, steps) == AFTER_EXPIRY
  {
    var steps := Journey(holds, releases, batch)[2..];
    FirstReserves(holds, releases);
    SecondReserves(holds, releases);
    WorkerExpires(batch);
    assert steps[1..][1..] == steps[2..] && steps[2..][1..] == [];
    hide Apply, Respects, OnShelf, Claim;
    StepThenRest(OnShelf(2, 3, BOTH), steps[2..], AFTER_EXPIRY);
    hide LifecycleRun, ValidRun, Run;
    StepThenRest(OnShelf(1, 2, FIRST), steps[1..], OnShelf(2, 3, BOTH));
    StepThenRest(OnShelf(0, 1, map[]), steps, OnShelf(1, 2, FIRST));
  }

  /** The store is reached from the empty one by an ordinary run: stock the shelf, reserve a unit for each of two
      customers, and let the worker expire one reservation. */
  lemma AfterExpiryIsReached(holds: Holds, releases: nat -> Reply, batch: Uuid -> nat -> Reply)
    ensures var steps := Journey(holds, releases, batch);
            LifecycleRun(EMPTY_STORE, steps) && ValidRun(EMPTY_STORE, steps) && Run(EMPTY_STORE, steps) == AFTER_EXPIRY
  {
    var steps := Journey(holds, releases, batch);
    ReserveAndExpire(holds, releases, batch);
    hide LifecycleRun, ValidRun, Run;
    var catalogue := Store({1}, map[1 := WAREHOUSE], map[], map[], []);
    assert steps[1..][1..] == steps[2..];
    StepThenRest(catalogue, steps[1..], OnShelf(0, 1, map[]));
    StepThenRest(EMPTY_STORE, steps, catalogue);
  }

  /** After that run, confirming the expired reservation takes the other customer's unit; confirming that one then
      fails on internal stock, which no lifecycle-respecting run can do. */
  lemma LifecycleIsNeeded(holds: Holds, releases: nat -> Reply, batch: Uuid -> nat -> Reply, replies: nat -> Reply)
    ensures var steps := Journey(holds, releases, batch);
            LifecycleRun(EMPTY_STORE, steps) && ValidRun(EMPTY_STORE, steps) && Run(EMPTY_STORE, steps) == AFTER_EXPIRY
    ensures Live(AFTER_EXPIRY) && !Respects(AFTER_EXPIRY, ConfirmStep(1, 7, replies))
    ensures var x := Confirm(AFTER_EXPIRY, 1, 7, replies);
            && x.Commit? && !Conserved(x.value)
            && Confirm(x.value, 2, 8, replies) == Raise(InventoryConfirmationError(Internal))
  {
    AfterExpiryIsReached(holds, releases, batch);
    EmptyStoreLive();
    RunLive(EMPTY_STORE, Journey(holds, releases, batch));
    ExpiredIsConfirmed(replies);
    SecondIsRefused(replies);
    ExpiredConfirmBreaksLedger(replies);
  }

  // ----- An external offer removed with its hold -----

  const PARTNER := Provider(External, true, true, false, true, true, true)

  function Promised(reference: string): Reservation {
    Claim(1, 7, ReservationStatus.Pending, AllocationStatus.Held)
      .(allocations := [Allocation(SHELF, 1, AllocationStatus.Held, Some(reference), None, None)])
  }

  function WithPartner(offers: Offers, reservations: Reservations): Store {
    Store({1}, map[1 := PARTNER], offers, reservations, [])
  }

  lemma PartnerHolds(replies: Uuid -> Routing.CandidateReply, reference: string)
    requires replies(1).hold == Routing.HoldReply.Held(Some(reference))
    ensures var r := Routing.RouteItem(map[1 := PARTNER], Shelved(0, 1), Item(1, 1, 1), replies);
            r.offers == Shelved(0, 1) && r.end == Routing.RoutedTo(Routing.ProviderHold(1, Some(reference)))
  {
    OnlyShelfIsCandidate(PARTNER, 0, 1);
  }

  lemma PartnerItemHeld(holds: Holds, reference: string)
    requires holds(0)(1).hold == Routing.HoldReply.Held(Some(reference))
    ensures HoldItems(map[1 := PARTNER], Shelved(0, 1), [Item(1, 1, 1)], 0, [], holds)
            == Commit(Holding(Shelved(0, 1), Promised(reference).allocations, true))
  {
    PartnerHolds(holds(0), reference);
    var r := Routing.RouteItem(map[1 := PARTNER], Shelved(0, 1), Item(1, 1, 1), holds(0));
    HoldItemsTurn(map[1 := PARTNER], Shelved(0, 1), [Item(1, 1, 1)], 0, [], holds, r);
    var none: seq<Allocation> := [];
    var held := none + [HeldAllocation([Item(1, 1, 1)][0], r.end.hold)];
    assert held == Promised(reference).allocations;
    assert HoldItems(map[1 := PARTNER], r.offers, [Item(1, 1, 1)], 1, held, holds) == Commit(Holding(r.offers, held, true));
  }

  lemma PromiseCreated(holds: Holds, releases: nat -> Reply, reference: string)
    requires holds(0)(1).hold == Routing.HoldReply.Held(Some(reference))
    ensures Apply(WithPartner(Shelved(0, 1), map[]), CreateStep(Request(1, 7), holds, releases))
            == WithPartner(Shelved(0, 1), map[1 := Promised(reference)])
  {
    PartnerItemHeld(holds, reference);
    hide HoldItems, Fingerprint.Canonical;
    assert InsertError(WithPartner(Shelved(0, 1), map[]), Draft(Request(1, 7))).None?;
  }

  lemma PromiseWeighs(reference: string)
    ensures HeldUnits(WithPartner(map[], map[1 := Promised(reference)]), SHELF) == 1
  {
    var rs := map[1 := Promised(reference)];
    var r := Promised(reference);
    TotalSplit(HeldAt(SHELF), rs, 1);
    assert rs - {1} == map[];
    assert r.allocations[1..] == [];
    assert AllocationsWeight(HeldAt(SHELF), r.allocations) == AllocationWeight(HeldAt(SHELF), r.allocations[0]) + 0;
  }

  function Removal(holds: Holds, releases: nat -> Reply): seq<Step> {
    [ConfigureStep({1}, map[1 := PARTNER]), SetLevelStep(SHELF, 5, 0, None),
     CreateStep(Request(1, 7), holds, releases), RemoveLevelStep(SHELF)]
  }

  lemma PartnerRemoved(reference: string)
    ensures Apply(WithPartner(Shelved(0, 1), map[1 := Promised(reference)]), RemoveLevelStep(SHELF))
            == WithPartner(map[], map[1 := Promised(reference)])
  {
    hide Promised;
    assert Shelved(0, 1) - {SHELF} == map[];
  }

  lemma HeldThenRemoved(holds: Holds, releases: nat -> Reply, reference: string)
    requires holds(0)(1).hold == Routing.HoldReply.Held(Some(reference))
    ensures var s, steps := WithPartner(Shelved(0, 1), map[]), Removal(holds, releases)[2..];
            LifecycleRun(s, steps) && ValidRun(s, steps) && Run(s, steps) == WithPartner(map[], map[1 := Promised(reference)])
  {
    var steps := Removal(holds, releases)[2..];
    PromiseCreated(holds, releases, reference);
    PartnerRemoved(reference);
    var held, removed := WithPartner(Shelved(0, 1), map[1 := Promised(reference)]), WithPartner(map[], map[1 := Promised(reference)]);
    assert steps[1..][1..] == [];
    hide Apply, Respects, WithPartner, Promised, Shelved;
    StepThenRest(held, steps[1..], removed);
    hide LifecycleRun, ValidRun, Run;
    StepThenRest(WithPartner(Shelved(0, 1), map[]), steps, held);
  }

  /** From the empty store: stock an external offer, let a customer hold a unit there, and remove the offer. The run
      respects the lifecycle, the removal succeeds, and the hold is still live. */
  lemma ExternalHoldIsDropped(holds: Holds, releases: nat -> Reply, reference: string)
    requires holds(0)(1).hold == Routing.HoldReply.Held(Some(reference))
    ensures var steps := Removal(holds, releases);
            && LifecycleRun(EMPTY_STORE, steps) && ValidRun(EMPTY_STORE, steps)
            && SHELF !in Run(EMPTY_STORE, steps).offers && HeldUnits(Run(EMPTY_STORE, steps), SHELF) == 1
  {
    var steps := Removal(holds, releases);
    HeldThenRemoved(holds, releases, reference);
    PromiseWeighs(reference);
    hide LifecycleRun, ValidRun, Run, HeldUnits;
    var catalogue := Store({1}, map[1 := PARTNER], map[], map[], []);
    assert steps[1..][1..] == steps[2..];
    StepThenRest(catalogue, steps[1..], WithPartner(Shelved(0, 1), map[]));
    StepThenRest(EMPTY_STORE, steps, catalogue);
  }
}
