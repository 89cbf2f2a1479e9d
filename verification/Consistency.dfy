/** What every committed store satisfies, whatever the callers do. */
module Consistency {
  import opened Types
  import opened Stock
  import opened Ledger
  import opened Settlement
  import opened Transactions
  import Routing
  import Fingerprint

  predicate AllConfirmed(allocations: seq<Allocation>) {
    forall a | a in allocations :: a.status.Confirmed?
  }

  predicate ItemsOk(items: seq<Item>) {
    items != [] && Fingerprint.DistinctProducts(items) && forall item | item in items :: item.quantity > 0
  }

  /** Each allocation serves one item, in item order, for the item's quantity. */
  predicate Serves(allocations: seq<Allocation>, items: seq<Item>) {
    && |allocations| <= |items|
    && forall i | 0 <= i < |allocations| ::
         allocations[i].key.product == items[i].product && allocations[i].quantity == items[i].quantity
  }

  /** An external allocation is at an end state only if the operation that led there succeeded;
      internal allocations have no provider operations. */
  predicate Evidenced(providers: Providers, a: Allocation) {
    if IsInternal(providers, a.key.provider) then a.confirmOp.None? && a.releaseOp.None?
    else
      && (a.status.Confirmed? ==> a.confirmOp.Some? && a.confirmOp.value.status.Succeeded?)
      && (a.status.Released? ==> a.releaseOp.Some? && a.releaseOp.value.status.Succeeded?)
  }

  /** No transaction commits an operation that is still in progress. */
  predicate NothingInProgress(a: Allocation) {
    && (a.confirmOp.Some? ==> !a.confirmOp.value.status.InProgress?)
    && (a.releaseOp.Some? ==> !a.releaseOp.value.status.InProgress?)
  }

  predicate AllocationOk(providers: Providers, a: Allocation) {
    a.key.provider in providers && a.quantity > 0 && Evidenced(providers, a) && NothingInProgress(a)
  }

  predicate RowOk(providers: Providers, r: Reservation) {
    && ItemsOk(r.items)
    && Serves(r.allocations, r.items)
    && (forall a | a in r.allocations :: AllocationOk(providers, a))
    && (r.status.Confirmed? ==> AllConfirmed(r.allocations))
  }

  predicate OrderFits(rs: Reservations, o: Order) {
    && o.reservation in rs
    && rs[o.reservation].status.Confirmed?
    && o.user == rs[o.reservation].user
    && o.lines == OrderLines(rs[o.reservation].items)
  }

  predicate OneOrderEach(orders: seq<Order>) {
    forall i, j | 0 <= i < j < |orders| :: orders[i].reservation != orders[j].reservation
  }

  /** Confirmed reservations and orders correspond one to one. */
  predicate OrdersOk(rs: Reservations, orders: seq<Order>) {
    && OneOrderEach(orders)
    && (forall o | o in orders :: OrderFits(rs, o))
    && (forall id | id in rs && rs[id].status.Confirmed? :: HasOrder(orders, id))
  }

  predicate ExternalsUnreserved(providers: Providers, offers: Offers) {
    forall k | k in offers :: k.provider in providers && (providers[k.provider].kind.External? ==> offers[k].reserved == 0)
  }

  predicate KeysUnique(rs: Reservations) {
    forall i, j | i in rs && j in rs && rs[i].user == rs[j].user && rs[i].key == rs[j].key :: i == j
  }

  predicate RowsOk(providers: Providers, rs: Reservations) {
    forall id | id in rs :: rs[id].id == id && RowOk(providers, rs[id])
  }

  predicate Consistent(s: Store) {
    && OffersOk(s.offers)
    && ExternalsUnreserved(s.providers, s.offers)
    && RowsOk(s.providers, s.reservations)
    && KeysUnique(s.reservations)
    && OrdersOk(s.reservations, s.orders)
  }

  // ----- Settling one row -----

  /** The parts of a reservation no transaction rewrites. */
  predicate SameRequest(r: Reservation, t: Reservation) {
    && t.id == r.id && t.user == r.user && t.key == r.key && t.fingerprint == r.fingerprint
    && t.items == r.items && t.createdAt == r.createdAt && t.expiresAt == r.expiresAt
  }

  /** Rows persist, requests never change, and confirmed and cancelled rows are final. */
  predicate Evolves(s: Store, t: Store) {
    forall id | id in s.reservations ::
      && id in t.reservations
      && SameRequest(s.reservations[id], t.reservations[id])
      && (s.reservations[id].status.Confirmed? || s.reservations[id].status.Cancelled? ==> t.reservations[id] == s.reservations[id])
  }

  /** Books a settlement may leave: bounded offers, external rows untouched. */
  ghost predicate OffersSettled(providers: Providers, before: Offers, after: Offers) {
    && OffersOk(after)
    && after.Keys == before.Keys
    && forall k | k in before && !IsInternal(providers, k.provider) :: after[k] == before[k]
  }

  lemma SettledAllocationOk(d: Direction, c: Context, providers: Providers, a: Allocation, reply: Reply, b: Allocation)
    requires AllocationOk(providers, a)
    requires SettledTo(d, c, ProviderRow(providers, a.key.provider), a, reply, b)
    ensures AllocationOk(providers, b) && b.key == a.key && b.quantity == a.quantity
  {
  }

  lemma SettleRowOk(d: Direction, c: Context, providers: Providers, offers: Offers, r: Reservation, replies: nat -> Reply)
    requires OffersOk(offers) && RowOk(providers, r)
    requires SettleFrom(d, c, providers, Books(offers, r.allocations), 0, replies).Commit?
    ensures var b := SettleFrom(d, c, providers, Books(offers, r.allocations), 0, replies).value;
            && OffersSettled(providers, offers, b.offers)
            && |b.allocations| == |r.allocations|
            && Serves(b.allocations, r.items)
            && forall a | a in b.allocations :: AllocationOk(providers, a)
  {
    var before := Books(offers, r.allocations);
    assert QuantitiesPositive(r.allocations);
    SettleFromBounds(d, c, providers, before, 0, replies);
    SettleFromPointwise(d, c, providers, before, 0, replies);
    var b := SettleFrom(d, c, providers, before, 0, replies).value;
    forall i | 0 <= i < |b.allocations|
      ensures AllocationOk(providers, b.allocations[i])
      ensures b.allocations[i].key == r.allocations[i].key && b.allocations[i].quantity == r.allocations[i].quantity
    {
      assert r.allocations[i] in r.allocations;
      SettledAllocationOk(d, c, providers, r.allocations[i], replies(i), b.allocations[i]);
    }
  }

  /** Replacing one row keeps the store consistent, provided orders follow the row's status. */
  lemma PutConsistent(s: Store, id: Uuid, account: Account)
    requires Consistent(s)
    requires account.reservation.id == id && RowOk(s.providers, account.reservation)
    requires OffersOk(account.offers) && ExternalsUnreserved(s.providers, account.offers)
    requires id in s.reservations ==> SameRequest(s.reservations[id], account.reservation) && !s.reservations[id].status.Confirmed?
    requires id !in s.reservations ==> !KeyTaken(s.reservations, account.reservation.user, account.reservation.key)
    ensures !account.reservation.status.Confirmed? ==> Consistent(Put(s, id, account))
    ensures account.reservation.status.Confirmed? ==>
              Consistent(Put(s, id, account).(orders := EnsureOrder(s.orders, account.reservation)))
  {
    var t := Put(s, id, account);
    assert !HasOrder(s.orders, id);
    assert KeysUnique(t.reservations) by {
      forall i, j | i in t.reservations && j in t.reservations && t.reservations[i].user == t.reservations[j].user
                    && t.reservations[i].key == t.reservations[j].key
        ensures i == j
      {
        if i != j && id !in s.reservations {
          var other := if i == id then j else i;
          assert other in s.reservations && OwnsKey(s.reservations[other], t.reservations[other].user, t.reservations[other].key);
        }
      }
    }
    if account.reservation.status.Confirmed? {
      var order := Order(id, account.reservation.user, OrderLines(account.reservation.items));
      assert EnsureOrder(s.orders, account.reservation) == s.orders + [order];
      OrderAppended(s.reservations, s.orders, id, account.reservation);
    }
  }

  lemma OrderAppended(rs: Reservations, orders: seq<Order>, id: Uuid, r: Reservation)
    requires OrdersOk(rs, orders) && r.id == id && r.status.Confirmed? && !HasOrder(orders, id)
    ensures OrdersOk(rs[id := r], orders + [Order(id, r.user, OrderLines(r.items))])
  {
    var order := Order(id, r.user, OrderLines(r.items));
    var t := orders + [order];
    forall o | o in t ensures OrderFits(rs[id := r], o) {
      if o != order { assert o in orders; }
    }
    assert OneOrderEach(t) by {
      assert forall i | 0 <= i < |orders| :: orders[i] in orders;
    }
    forall i | i in rs[id := r] && rs[id := r][i].status.Confirmed? ensures HasOrder(t, i) {
      if i == id {
        assert order in t;
      } else {
        var o :| o in orders && o.reservation == i;
        assert o in t;
      }
    }
  }

  lemma ExternalsStayUnreserved(providers: Providers, before: Offers, after: Offers)
    requires ExternalsUnreserved(providers, before) && OffersSettled(providers, before, after)
    ensures ExternalsUnreserved(providers, after)
  {
    assert forall k | k in after :: k in before;
  }

  lemma ConfirmRowConsistent(s: Store, id: Uuid, c: Context, replies: nat -> Reply)
    requires Consistent(s) && id in s.reservations && !s.reservations[id].status.Confirmed?
    requires ConfirmRow(s, id, c, replies).Commit?
    ensures Consistent(ConfirmRow(s, id, c, replies).value)
    ensures !s.reservations[id].status.Cancelled? ==> Evolves(s, ConfirmRow(s, id, c, replies).value)
  {
    hide SettleFrom, OrdersOk, KeysUnique, AllocationOk, Serves, ItemsOk, ExternalsUnreserved;
    var r := s.reservations[id];
    SettleRowOk(ToConfirm, c, s.providers, s.offers, r, replies);
    var account := ConfirmAll(s.providers, s.offers, r, c, replies).value;
    ExternalsStayUnreserved(s.providers, s.offers, account.offers);
    PutConsistent(s, id, account);
  }

  lemma ReleaseRowConsistent(s: Store, id: Uuid, terminal: ReservationStatus, c: Context, replies: nat -> Reply)
    requires Consistent(s) && id in s.reservations && !s.reservations[id].status.Confirmed? && !terminal.Confirmed?
    requires ReleaseRow(s, id, terminal, c, replies).Commit?
    ensures Consistent(ReleaseRow(s, id, terminal, c, replies).value)
    ensures !s.reservations[id].status.Cancelled? ==> Evolves(s, ReleaseRow(s, id, terminal, c, replies).value)
  {
    hide SettleFrom, OrdersOk, KeysUnique, AllocationOk, Serves, ItemsOk, ExternalsUnreserved;
    var r := s.reservations[id];
    SettleRowOk(ToRelease, c, s.providers, s.offers, r, replies);
    var account := ReleaseAll(s.providers, s.offers, r, terminal, c, replies).value;
    ExternalsStayUnreserved(s.providers, s.offers, account.offers);
    PutConsistent(s, id, account);
  }

  // ----- Creating a reservation -----

  predicate FreshlyHeld(a: Allocation) {
    a.status.Held? && a.confirmOp.None? && a.releaseOp.None?
  }

  /** Holding moves reserved units and held units together; internal stock on hand does not change. */
  ghost predicate HoldBalanceAt(providers: Providers, b: Books, t: Books, k: OfferKey) {
    if IsInternal(providers, k.provider) then
      && Reserved(t.offers, k) - AllocationsWeight(HeldAt(k), t.allocations)
         == Reserved(b.offers, k) - AllocationsWeight(HeldAt(k), b.allocations)
      && OnHand(t.offers, k) == OnHand(b.offers, k)
    else Reserved(t.offers, k) == Reserved(b.offers, k)
  }

  predicate HeldFor(providers: Providers, allocations: seq<Allocation>, items: seq<Item>) {
    && Serves(allocations, items)
    && forall a | a in allocations :: AllocationOk(providers, a) && FreshlyHeld(a)
  }

  lemma RoutingKeepsOffers(providers: Providers, offers: Offers, item: Item, replies: Uuid -> Routing.CandidateReply)
    requires OffersOk(offers) && ExternalsUnreserved(providers, offers) && item.quantity > 0
    ensures var r := Routing.RouteItem(providers, offers, item, replies);
            OffersOk(r.offers) && ExternalsUnreserved(providers, r.offers)
  {
    var c := Routing.Candidates(providers, offers, OfferKey(item.product, item.provider));
    Routing.RouteFromBounds(providers, offers, Routing.Demand(item.product, item.quantity), c, 0, [], replies);
    Routing.RoutingEffect(providers, offers, item, replies);
    assert forall k | k in Routing.RouteItem(providers, offers, item, replies).offers :: k in offers;
  }

  function AfterRouting(item: Item, r: Routing.Routing, allocations: seq<Allocation>): seq<Allocation> {
    if r.end.RoutedTo? then allocations + [HeldAllocation(item, r.end.hold)] else allocations
  }

  lemma HoldOneBalance(providers: Providers, offers: Offers, item: Item, allocations: seq<Allocation>,
                       replies: Uuid -> Routing.CandidateReply, k: OfferKey)
    ensures var r := Routing.RouteItem(providers, offers, item, replies);
            HoldBalanceAt(providers, Books(offers, allocations), Books(r.offers, AfterRouting(item, r, allocations)), k)
  {
    var r := Routing.RouteItem(providers, offers, item, replies);
    Routing.RoutingEffect(providers, offers, item, replies);
    if r.end.RoutedTo? {
      Routing.WinnerIsEligible(providers, offers, item, replies);
      AppendAllocation(HeldAt(k), allocations, HeldAllocation(item, r.end.hold));
    }
    assert k in r.offers <==> k in offers;
  }

  lemma AppendServes(providers: Providers, items: seq<Item>, allocations: seq<Allocation>, hold: Routing.ProviderHold)
    requires |allocations| < |items| && HeldFor(providers, allocations, items)
    requires items[|allocations|].quantity > 0 && hold.provider in providers
    ensures HeldFor(providers, allocations + [HeldAllocation(items[|allocations|], hold)], items)
  {
  }

  lemma HoldOneServes(providers: Providers, offers: Offers, items: seq<Item>, allocations: seq<Allocation>,
                      replies: Uuid -> Routing.CandidateReply)
    requires forall item | item in items :: item.quantity > 0
    requires |allocations| < |items| && HeldFor(providers, allocations, items)
    ensures var item := items[|allocations|];
            HeldFor(providers, AfterRouting(item, Routing.RouteItem(providers, offers, item, replies), allocations), items)
  {
    var item := items[|allocations|];
    assert item in items;
    var r := Routing.RouteItem(providers, offers, item, replies);
    if r.end.RoutedTo? {
      Routing.WinnerIsEligible(providers, offers, item, replies);
      AppendServes(providers, items, allocations, r.end.hold);
    }
  }

  lemma {:induction false} HoldItemsOk(providers: Providers, offers: Offers, items: seq<Item>, allocations: seq<Allocation>,
                                       replies: nat -> Uuid -> Routing.CandidateReply)
    requires OffersOk(offers) && ExternalsUnreserved(providers, offers)
    requires forall item | item in items :: item.quantity > 0
    requires |allocations| <= |items| && HeldFor(providers, allocations, items)
    requires HoldItems(providers, offers, items, |allocations|, allocations, replies).Commit?
    ensures var h := HoldItems(providers, offers, items, |allocations|, allocations, replies).value;
            && OffersOk(h.offers) && ExternalsUnreserved(providers, h.offers)
            && HeldFor(providers, h.allocations, items)
            && (h.complete ==> |h.allocations| == |items|)
    decreases |items| - |allocations|
  {
    if |allocations| < |items| {
      var item := items[|allocations|];
      assert item in items;
      RoutingKeepsOffers(providers, offers, item, replies(|allocations|));
      HoldOneServes(providers, offers, items, allocations, replies(|allocations|));
      var r := Routing.RouteItem(providers, offers, item, replies(|allocations|));
      if r.end.RoutedTo? {
        HoldItemsOk(providers, r.offers, items, AfterRouting(item, r, allocations), replies);
      }
    }
  }

  lemma HoldItemsNext(providers: Providers, offers: Offers, items: seq<Item>, allocations: seq<Allocation>,
                      replies: nat -> Uuid -> Routing.CandidateReply)
    requires |allocations| < |items|
    requires HoldItems(providers, offers, items, |allocations|, allocations, replies).Commit?
    ensures var item := items[|allocations|];
            var r := Routing.RouteItem(providers, offers, item, replies(|allocations|));
            var next := AfterRouting(item, r, allocations);
            HoldItems(providers, offers, items, |allocations|, allocations, replies)
            == if r.end.RoutedTo? then HoldItems(providers, r.offers, items, |next|, next, replies)
               else Commit(Holding(r.offers, next, false))
  {
  }

  lemma HoldBalanceComposes(providers: Providers, b: Books, m: Books, t: Books, k: OfferKey)
    requires HoldBalanceAt(providers, b, m, k) && HoldBalanceAt(providers, m, t, k)
    ensures HoldBalanceAt(providers, b, t, k)
  {
  }

  lemma {:induction false} HoldItemsBalance(providers: Providers, offers: Offers, items: seq<Item>, allocations: seq<Allocation>,
                                            replies: nat -> Uuid -> Routing.CandidateReply, k: OfferKey)
    requires |allocations| <= |items|
    requires HoldItems(providers, offers, items, |allocations|, allocations, replies).Commit?
    ensures var h := HoldItems(providers, offers, items, |allocations|, allocations, replies).value;
            HoldBalanceAt(providers, Books(offers, allocations), Books(h.offers, h.allocations), k)
    decreases |items| - |allocations|
  {
    if |allocations| < |items| {
      var item := items[|allocations|];
      HoldItemsNext(providers, offers, items, allocations, replies);
      HoldOneBalance(providers, offers, item, allocations, replies(|allocations|), k);
      var r := Routing.RouteItem(providers, offers, item, replies(|allocations|));
      var next := AfterRouting(item, r, allocations);
      if r.end.RoutedTo? {
        HoldItemsBalance(providers, r.offers, items, next, replies, k);
        var h := HoldItems(providers, r.offers, items, |next|, next, replies).value;
        HoldBalanceComposes(providers, Books(offers, allocations), Books(r.offers, next), Books(h.offers, h.allocations), k);
      }
    }
  }

  lemma DraftOk(s: Store, q: Reservation)
    requires InsertError(s, q).None?
    ensures ItemsOk(q.items) && q.id !in s.reservations && !KeyTaken(s.reservations, q.user, q.key)
  {
  }

  lemma AddWithHoldConsistent(s: Store, q: Reservation, holds: nat -> Uuid -> Routing.CandidateReply, releases: nat -> Reply)
    requires Consistent(s) && IsDraft(q)
    requires AddWithHold(s, q, holds, releases).Commit?
    ensures Consistent(AddWithHold(s, q, holds, releases).value.store)
  {
    DraftOk(s, q);
    HoldItemsOk(s.providers, s.offers, q.items, [], holds);
    var h := HoldItems(s.providers, s.offers, q.items, 0, [], holds).value;
    var r := q.(allocations := h.allocations);
    assert RowOk(s.providers, r);
    if h.complete {
      PutConsistent(s, q.id, Account(h.offers, r));
    } else {
      SettleRowOk(ToRelease, USER_CONTEXT, s.providers, h.offers, r, releases);
      var account := ReleaseAll(s.providers, h.offers, r, ReservationStatus.Failed, USER_CONTEXT, releases).value;
      ExternalsStayUnreserved(s.providers, h.offers, account.offers);
      PutConsistent(s, q.id, account);
    }
  }

  lemma AddWithHoldAddsOneRow(s: Store, q: Reservation, holds: nat -> Uuid -> Routing.CandidateReply, releases: nat -> Reply)
    requires IsDraft(q)
    requires AddWithHold(s, q, holds, releases).Commit?
    ensures var t := AddWithHold(s, q, holds, releases).value.store;
            && q.id !in s.reservations && q.id in t.reservations
            && t.reservations == s.reservations[q.id := t.reservations[q.id]]
            && t.products == s.products && t.providers == s.providers && t.orders == s.orders
  {
    DraftOk(s, q);
  }

  lemma AddWithHoldEvolves(s: Store, q: Reservation, holds: nat -> Uuid -> Routing.CandidateReply, releases: nat -> Reply)
    requires IsDraft(q)
    requires AddWithHold(s, q, holds, releases).Commit?
    ensures Evolves(s, AddWithHold(s, q, holds, releases).value.store)
  {
    AddWithHoldAddsOneRow(s, q, holds, releases);
  }

  // ----- Every step -----

  lemma EvolvesSelf(s: Store)
    ensures Evolves(s, s)
  {
  }

  lemma EvolvesComposes(s: Store, t: Store, u: Store)
    requires Evolves(s, t) && Evolves(t, u)
    ensures Evolves(s, u)
  {
  }

  lemma ReleaseRowElsewhere(s: Store, id: Uuid, terminal: ReservationStatus, c: Context, replies: nat -> Reply)
    requires id in s.reservations && ReleaseRow(s, id, terminal, c, replies).Commit?
    ensures var t := ReleaseRow(s, id, terminal, c, replies).value;
            forall x | x in s.reservations && x != id :: x in t.reservations && t.reservations[x] == s.reservations[x]
  {
    hide SettleFrom;
  }

  lemma {:induction false} ReleaseRowsConsistent(s: Store, rows: seq<Uuid>, terminal: ReservationStatus, replies: Uuid -> nat -> Reply)
    requires Consistent(s) && !terminal.Confirmed?
    requires Routing.Distinct(rows)
    requires forall id | id in rows :: id in s.reservations && s.reservations[id].status.Pending?
    requires ReleaseRows(s, rows, terminal, replies).Commit?
    ensures Consistent(ReleaseRows(s, rows, terminal, replies).value)
    ensures Evolves(s, ReleaseRows(s, rows, terminal, replies).value)
    decreases |rows|
  {
    hide ReleaseRow, Consistent, Evolves;
    if rows == [] {
      EvolvesSelf(s);
    } else {
      ReleaseRowConsistent(s, rows[0], terminal, USER_CONTEXT, replies(rows[0]));
      ReleaseRowElsewhere(s, rows[0], terminal, USER_CONTEXT, replies(rows[0]));
      var next := ReleaseRow(s, rows[0], terminal, USER_CONTEXT, replies(rows[0])).value;
      assert forall x | x in rows[1..] :: x in rows && x != rows[0];
      ReleaseRowsConsistent(next, rows[1..], terminal, replies);
      EvolvesComposes(s, next, ReleaseRows(next, rows[1..], terminal, replies).value);
    }
  }

  predicate TargetsTerminal(r: Reservation) {
    r.status.Releasing? ==> r.target != Some(ReservationStatus.Confirmed)
  }

  lemma ReconcileRowConsistent(s: Store, id: Uuid, c: Context, replies: nat -> Reply)
    requires Consistent(s) && id in s.reservations
    requires TargetsTerminal(s.reservations[id])
    requires ReconcileRow(s, id, c, replies).Commit?
    ensures Consistent(ReconcileRow(s, id, c, replies).value)
    ensures Evolves(s, ReconcileRow(s, id, c, replies).value)
  {
    var r := s.reservations[id];
    if r.status.Releasing? && r.target.Some? {
      ReleaseRowConsistent(s, id, r.target.value, c, replies);
    } else if r.status.Confirming? {
      ConfirmRowConsistent(s, id, c, replies);
    }
  }

  lemma ReconcileRowElsewhere(s: Store, id: Uuid, c: Context, replies: nat -> Reply)
    requires id in s.reservations && ReconcileRow(s, id, c, replies).Commit?
    ensures var t := ReconcileRow(s, id, c, replies).value;
            forall x | x in s.reservations && x != id :: x in t.reservations && t.reservations[x] == s.reservations[x]
  {
    hide SettleFrom;
  }

  lemma {:induction false} ReconcileRowsConsistent(s: Store, rows: seq<Uuid>, c: Context, replies: Uuid -> nat -> Reply)
    requires Consistent(s) && Routing.Distinct(rows)
    requires forall id | id in rows :: id in s.reservations && TargetsTerminal(s.reservations[id])
    requires ReconcileRows(s, rows, c, replies).Commit?
    ensures Consistent(ReconcileRows(s, rows, c, replies).value)
    ensures Evolves(s, ReconcileRows(s, rows, c, replies).value)
    decreases |rows|
  {
    hide ReconcileRow, Consistent, Evolves, TargetsTerminal;
    if rows == [] {
      EvolvesSelf(s);
    } else {
      ReconcileRowConsistent(s, rows[0], c, replies(rows[0]));
      ReconcileRowElsewhere(s, rows[0], c, replies(rows[0]));
      var next := ReconcileRow(s, rows[0], c, replies(rows[0])).value;
      assert forall x | x in rows[1..] :: x in rows && x != rows[0];
      ReconcileRowsConsistent(next, rows[1..], c, replies);
      EvolvesComposes(s, next, ReconcileRows(next, rows[1..], c, replies).value);
    }
  }

  lemma CreateConsistent(s: Store, q: CreateRequest, holds: nat -> Uuid -> Routing.CandidateReply, releases: nat -> Reply)
    requires Consistent(s)
    ensures var t := Create(s, q, holds, releases).store; Consistent(t) && Evolves(s, t)
  {
    if !KeyTaken(s.reservations, q.user, q.key) && AddWithHold(s, Draft(q), holds, releases).Commit? {
      AddWithHoldConsistent(s, Draft(q), holds, releases);
      AddWithHoldEvolves(s, Draft(q), holds, releases);
    }
  }

  lemma ConfirmConsistent(s: Store, id: Uuid, user: Uuid, replies: nat -> Reply)
    requires Consistent(s)
    requires Confirm(s, id, user, replies).Commit?
    ensures var t := Confirm(s, id, user, replies).value; Consistent(t) && Evolves(s, t)
  {
    if Owns(s, id, user) && !s.reservations[id].status.Confirmed? {
      ConfirmRowConsistent(s, id, USER_CONTEXT, replies);
    }
  }

  lemma CancelConsistent(s: Store, id: Uuid, user: Uuid, replies: nat -> Reply)
    requires Consistent(s)
    requires Cancel(s, id, user, replies).Commit?
    ensures var t := Cancel(s, id, user, replies).value; Consistent(t) && Evolves(s, t)
  {
    if Owns(s, id, user) && !s.reservations[id].status.Cancelled? {
      ReleaseRowConsistent(s, id, ReservationStatus.Cancelled, USER_CONTEXT, replies);
    }
  }

  lemma OperatorConsistent(s: Store, step: Step)
    requires Consistent(s) && Possible(s, step)
    requires step.SetLevelStep? || step.RemoveLevelStep? || step.ConfigureStep?
    ensures var t := Apply(s, step); Consistent(t) && Evolves(s, t)
  {
    var t := Apply(s, step);
    if step.ConfigureStep? {
      forall id | id in s.reservations ensures RowOk(t.providers, s.reservations[id]) {
        assert RowOk(s.providers, s.reservations[id]);
      }
    }
  }

  /** Whatever callers, workers and operators do, in whatever order, every step leaves a consistent store
      whose confirmed and cancelled reservations are exactly as they were. */
  lemma StepConsistent(s: Store, step: Step)
    requires Consistent(s) && Possible(s, step)
    ensures Consistent(Apply(s, step)) && Evolves(s, Apply(s, step))
  {
    if Attempt(s, step).Commit? {
      match step {
        case CreateStep(q, holds, compensation) => CreateConsistent(s, q, holds, compensation);
        case ConfirmStep(id, user, replies) => ConfirmConsistent(s, id, user, replies);
        case CancelStep(id, user, replies) => CancelConsistent(s, id, user, replies);
        case ExpireStep(now, limit, locked, batch) =>
          DueRowsAreDue(s, now, limit, locked);
          ReleaseRowsConsistent(s, DueRows(s, now, limit, locked), ReservationStatus.Expired, batch);
        case ReconcileStep(now, _, maxAttempts, baseDelay, _, rows, batch) =>
          ReconcileRowsConsistent(s, rows, WorkerContext(now, maxAttempts, baseDelay), batch);
        case _ => OperatorConsistent(s, step);
      }
    }
  }

  lemma {:induction false} RunConsistent(s: Store, steps: seq<Step>)
    requires Consistent(s) && ValidRun(s, steps)
    ensures Consistent(Run(s, steps)) && Evolves(s, Run(s, steps))
    decreases |steps|
  {
    if steps != [] {
      StepConsistent(s, steps[0]);
      RunConsistent(Apply(s, steps[0]), steps[1..]);
    }
  }

  /** Orders: in every reachable store an order exists for a reservation exactly when it is confirmed; it is
      the only one, it lists the reservation's items, and every allocation of the reservation is confirmed. */
  lemma OrdersMatchConfirmations(steps: seq<Step>, id: Uuid)
    requires ValidRun(EMPTY_STORE, steps)
    requires id in Run(EMPTY_STORE, steps).reservations
    ensures var s := Run(EMPTY_STORE, steps);
            var r := s.reservations[id];
            && (r.status.Confirmed? <==> HasOrder(s.orders, id))
            && (r.status.Confirmed? ==>
                  && AllConfirmed(r.allocations)
                  && exists i :: 0 <= i < |s.orders| && s.orders[i] == Order(id, r.user, OrderLines(r.items))
                       && forall j | 0 <= j < |s.orders| && s.orders[j].reservation == id :: j == i)
  {
    RunConsistent(EMPTY_STORE, steps);
    var s := Run(EMPTY_STORE, steps);
    if HasOrder(s.orders, id) {
      var o :| o in s.orders && o.reservation == id;
      assert OrderFits(s.reservations, o);
      var i :| 0 <= i < |s.orders| && s.orders[i] == o;
      assert RowOk(s.providers, s.reservations[id]);
    }
  }

  /** Stock: in every reachable store `0 <= reserved <= on_hand` for every offer, and nothing is reserved
      at an external provider. */
  lemma StockStaysInBounds(steps: seq<Step>, k: OfferKey)
    requires ValidRun(EMPTY_STORE, steps)
    ensures var s := Run(EMPTY_STORE, steps);
            k in s.offers ==>
              && 0 <= s.offers[k].reserved <= s.offers[k].onHand
              && (!IsInternal(s.providers, k.provider) ==> s.offers[k].reserved == 0)
  {
    RunConsistent(EMPTY_STORE, steps);
  }
}
