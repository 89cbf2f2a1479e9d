/** What the transactions decide and write, on the columns of the tables alone. */
module Columns {
  import opened Types
  import opened Settlement
  import opened Transactions
  import opened Consistency
  import opened Lifecycle
  import opened Expiry
  import Fingerprint
  import Routing
  import Workers

  type Holds = nat -> Uuid -> Routing.CandidateReply

  // ----- Create -----

  /** Nobody has used this key for this user. */
  predicate KeyFree(s: Store, q: CreateRequest) {
    forall id | id in s.reservations :: s.reservations[id].user != q.user || s.reservations[id].key != q.key
  }

  /** The row that create drafts. */
  lemma DraftColumns(q: CreateRequest)
    ensures var r := Draft(q);
            && r.id == q.id && r.user == q.user && r.key == q.key && r.items == q.items
            && r.createdAt == q.now && r.expiresAt == q.now + q.ttl
            && r.fingerprint == Fingerprint.Canonical(q.items)
            && r.status.Pending? && r.target.None? && r.allocations == []
  {
    hide Fingerprint.Canonical;
  }

  lemma CreateFree(s: Store, q: CreateRequest, holds: Holds, releases: nat -> Reply)
    requires KeyFree(s, q)
    ensures Create(s, q, holds, releases)
            == if exists item | item in q.items :: item.quantity <= 0 then Created(s, Raise(InvalidReservationQuantityError))
               else match AddWithHold(s, Draft(q), holds, releases)
                    case Raise(e) => Created(s, Raise(e))
                    case Commit(added) =>
                      Created(added.store, if added.held then Commit(Draft(q)) else Raise(InsufficientInventoryError))
  {
    hide AddWithHold, Draft;
    assert !KeyTaken(s.reservations, q.user, q.key);
    if QuantitiesValid(q.items) { CreateWhenFree(s, q, holds, releases); }
  }

  /** What the insert refuses. */
  lemma InsertErrorColumns(s: Store, q: CreateRequest)
    requires KeyFree(s, q) && forall item | item in q.items :: item.quantity > 0
    ensures InsertError(s, Draft(q))
            == if q.items == [] then Some(EmptyReservationError)
               else if q.ttl <= 0 then Some(InvalidReservationTtlError)
               else if || q.key == "" || q.id in s.reservations
                       || (exists i, j | 0 <= i < j < |q.items| :: q.items[i].product == q.items[j].product)
                       || (exists item | item in q.items :: item.product !in s.products || item.provider !in s.providers)
                    then Some(IntegrityError)
               else None
  {
    DraftColumns(q);
    hide Draft;
  }

  lemma AddWithHoldErrors(s: Store, q: Reservation, holds: Holds, releases: nat -> Reply)
    requires InsertError(s, q).None?
    ensures match AddWithHold(s, q, holds, releases)
            case Raise(e) => e in {UnknownProviderOutcomeError, ProviderRaised, InventoryReleaseError(Internal), InventoryReleaseError(External)}
            case Commit(added) => true
  {
    HoldItemsErrors(s.providers, s.offers, q.items, 0, [], holds);
    if HoldItems(s.providers, s.offers, q.items, 0, [], holds).Commit? {
      var h := HoldItems(s.providers, s.offers, q.items, 0, [], holds).value;
      SettleFromErrors(ToRelease, USER_CONTEXT, s.providers, Books(h.offers, h.allocations), 0, releases);
    }
    hide HoldItems, SettleFrom, InsertError;
  }

  /** Which requests under a free key are refused, and that a refused one leaves nothing behind. A row is written exactly
      when the caller gets the reservation or is told that stock is insufficient. */
  lemma FreeKeyAnswer(s: Store, q: CreateRequest, holds: Holds, releases: nat -> Reply)
    requires KeyFree(s, q)
    ensures var x := Create(s, q, holds, releases);
            var built := forall item | item in q.items :: item.quantity > 0;
            && (x.answer == Raise(InvalidReservationQuantityError) <==> !built)
            && (x.answer == Raise(EmptyReservationError) <==> built && q.items == [])
            && (x.answer == Raise(InvalidReservationTtlError) <==> built && q.items != [] && q.ttl <= 0)
            && (x.answer == Raise(IntegrityError) <==>
                  && built && q.items != [] && q.ttl > 0
                  && (|| q.key == "" || q.id in s.reservations
                      || (exists i, j | 0 <= i < j < |q.items| :: q.items[i].product == q.items[j].product)
                      || (exists item | item in q.items :: item.product !in s.products || item.provider !in s.providers)))
            && x.answer != Raise(IdempotencyConflictError) && x.answer != Raise(ConcurrentReservationCreationError)
            && (x.answer.Commit? || x.answer == Raise(InsufficientInventoryError) <==> q.id !in s.reservations && q.id in x.store.reservations)
            && (x.answer.Raise? && x.answer.error != InsufficientInventoryError ==> x.store == s)
  {
    CreateFree(s, q, holds, releases);
    if forall item | item in q.items :: item.quantity > 0 {
      InsertErrorColumns(s, q);
      DraftColumns(q);
      hide Create, Draft;
      if InsertError(s, Draft(q)).None? {
        AddWithHoldErrors(s, Draft(q), holds, releases);
        if AddWithHold(s, Draft(q), holds, releases).Commit? { AddWithHoldAddsOneRow(s, Draft(q), holds, releases); }
      } else {
        assert AddWithHold(s, Draft(q), holds, releases) == Raise(InsertError(s, Draft(q)).value);
      }
      hide AddWithHold, InsertError;
    }
  }

  lemma AddedRow(s: Store, q: Reservation, holds: Holds, releases: nat -> Reply)
    requires IsDraft(q) && AddWithHold(s, q, holds, releases).Commit?
    ensures var added := AddWithHold(s, q, holds, releases).value;
            && q.id in added.store.reservations
            && var r := added.store.reservations[q.id];
               && r == q.(status := r.status, target := r.target, allocations := r.allocations)
               && (if added.held then r.status.Pending? && r.target.None?
                   else (r.status.Failed? && r.target.None?) || (r.status.Releasing? && r.target == Some(ReservationStatus.Failed)))
  {
    hide InsertError, HoldItems, SettleFrom;
  }

  lemma AddedIsValid(s: Store, q: Reservation, holds: Holds, releases: nat -> Reply)
    requires AddWithHold(s, q, holds, releases).Commit?
    ensures q.createdAt < q.expiresAt
  {
    hide HoldItems, SettleFrom, KeyTaken, Fingerprint.DistinctProducts;
  }

  /** The row that create writes is the caller's request, starts at the clock reading and expires one lifetime later;
      it is pending exactly when the caller gets the reservation, which then is that row without its allocations. Nothing
      else is written but offers. */
  lemma NewRowColumns(s: Store, q: CreateRequest, holds: Holds, releases: nat -> Reply)
    requires q.id !in s.reservations && q.id in Create(s, q, holds, releases).store.reservations
    ensures var x := Create(s, q, holds, releases);
            var r := x.store.reservations[q.id];
            && r.id == q.id && r.user == q.user && r.key == q.key && r.items == q.items
            && r.createdAt == q.now && r.expiresAt == q.now + q.ttl && r.createdAt < r.expiresAt
            && r.fingerprint == Fingerprint.Canonical(q.items)
            && x.store.reservations == s.reservations[q.id := r]
            && x.store.orders == s.orders && x.store.providers == s.providers && x.store.products == s.products
            && (if r.status.Pending? then r.target.None? && x.answer == Commit(r.(allocations := []))
                else
                  && x.answer == Raise(InsufficientInventoryError)
                  && ((r.status.Failed? && r.target.None?) || (r.status.Releasing? && r.target == Some(ReservationStatus.Failed))))
  {
    hide Create, AddWithHold, Draft, Fingerprint.Canonical, KeyTaken, QuantitiesValid, InsertError;
    if QuantitiesValid(q.items) && !KeyTaken(s.reservations, q.user, q.key) {
      CreateWhenFree(s, q, holds, releases);
      DraftColumns(q);
      AddWithHoldAddsOneRow(s, Draft(q), holds, releases);
      AddedRow(s, Draft(q), holds, releases);
      AddedIsValid(s, Draft(q), holds, releases);
    } else {
      CreateOtherwise(s, q, holds, releases);
    }
  }

  lemma NewRowWhenAny(s: Store, q: CreateRequest, holds: Holds, releases: nat -> Reply)
    ensures q.id !in s.reservations && q.id in Create(s, q, holds, releases).store.reservations ==>
              var r := Create(s, q, holds, releases).store.reservations[q.id];
              r.user == q.user && r.key == q.key && r.items == q.items && r.createdAt == q.now && r.expiresAt == q.now + q.ttl
  {
    hide Create, Fingerprint.Canonical;
    if q.id !in s.reservations && q.id in Create(s, q, holds, releases).store.reservations { NewRowColumns(s, q, holds, releases); }
  }

  /** One item's new allocation: its product and quantity, at an enabled provider that can hold and is the selected one or
      in the selected offer's group, with the reference that provider answered, if it is external. */
  predicate HeldAsAnswered(providers: Providers, offers: Offers, item: Item, replies: Uuid -> Routing.CandidateReply, a: Allocation) {
    var selected := OfferKey(item.product, item.provider);
    && a.key.product == item.product && a.quantity == item.quantity
    && a.status.Held? && a.confirmOp.None? && a.releaseOp.None?
    && a.key.provider in providers && providers[a.key.provider].enabled && providers[a.key.provider].hold
    && (if providers[a.key.provider].kind.Internal? then a.reference.None?
        else replies(a.key.provider).hold == Routing.HoldReply.Held(a.reference))
    && a.key in offers
    && (if selected in offers && offers[selected].group.Some? then offers[a.key].group == offers[selected].group
        else a.key.provider == item.provider)
  }

  predicate SameGroups(offers: Offers, now: Offers) {
    now.Keys == offers.Keys && forall k | k in offers :: now[k].group == offers[k].group
  }

  lemma RoutedAsAnswered(providers: Providers, offers: Offers, now: Offers, item: Item, replies: Uuid -> Routing.CandidateReply)
    requires SameGroups(offers, now)
    ensures var r := Routing.RouteItem(providers, now, item, replies);
            && SameGroups(offers, r.offers)
            && (r.end.RoutedTo? ==> HeldAsAnswered(providers, offers, item, replies, HeldAllocation(item, r.end.hold)))
  {
    var r := Routing.RouteItem(providers, now, item, replies);
    Routing.RoutingEffect(providers, now, item, replies);
    if r.end.RoutedTo? {
      Routing.EndColumns(providers, now, item, replies, r.end.hold.provider);
      Routing.WinnerColumns(providers, now, item, replies);
    }
    hide Routing.RouteItem;
  }

  lemma {:induction false} HoldItemsColumns(providers: Providers, offers: Offers, now: Offers, items: seq<Item>, allocations: seq<Allocation>,
                                            holds: Holds)
    requires |allocations| <= |items| && SameGroups(offers, now)
    requires forall i | 0 <= i < |allocations| :: HeldAsAnswered(providers, offers, items[i], holds(i), allocations[i])
    requires HoldItems(providers, now, items, |allocations|, allocations, holds).Commit?
    ensures var h := HoldItems(providers, now, items, |allocations|, allocations, holds).value;
            && |h.allocations| <= |items| && (h.complete <==> |h.allocations| == |items|)
            && forall i | 0 <= i < |h.allocations| :: HeldAsAnswered(providers, offers, items[i], holds(i), h.allocations[i])
    decreases |items| - |allocations|
  {
    hide HeldAsAnswered, SameGroups, Routing.RouteItem;
    if |allocations| < |items| {
      var item, n := items[|allocations|], |allocations|;
      var r := Routing.RouteItem(providers, now, item, holds(n));
      RoutedAsAnswered(providers, offers, now, item, holds(n));
      HoldItemsTurn(providers, now, items, n, allocations, holds, r);
      if r.end.RoutedTo? {
        HoldItemsColumns(providers, offers, r.offers, items, allocations + [HeldAllocation(item, r.end.hold)], holds);
      }
    }
  }

  /** A reservation that create gives to the caller has one hold for each item, in order, at a provider that was
      eligible for the item on the offers before and with the reference that it answered. */
  lemma NewHoldsColumns(s: Store, q: CreateRequest, holds: Holds, releases: nat -> Reply)
    requires KeyFree(s, q) && Create(s, q, holds, releases).answer.Commit?
    ensures var t := Create(s, q, holds, releases).store;
            && q.id in t.reservations
            && |t.reservations[q.id].allocations| == |q.items|
            && forall i | 0 <= i < |q.items| ::
                 HeldAsAnswered(s.providers, s.offers, q.items[i], holds(i), t.reservations[q.id].allocations[i])
  {
    hide Draft, HeldAsAnswered, Create, HoldItems, InsertError;
    CreateFree(s, q, holds, releases);
    DraftColumns(q);
    HoldItemsColumns(s.providers, s.offers, s.offers, q.items, [], holds);
  }

  // ----- Confirm and cancel -----

  /** Confirm and cancel answer another user's reservation, like an unknown one, with nothing and write nothing; their
      own reservation is answered with its row after the call. */
  lemma OwnersOnly(s: Store, id: Uuid, user: Uuid, replies: nat -> Reply)
    ensures id !in s.reservations || s.reservations[id].user != user ==>
              Confirm(s, id, user, replies) == Commit(s) && Cancel(s, id, user, replies) == Commit(s) && Lookup(s, id, user) == None
    ensures id in s.reservations && s.reservations[id].user == user ==>
              forall x | x in [Confirm(s, id, user, replies), Cancel(s, id, user, replies)] && x.Commit? ::
                id in x.value.reservations && Lookup(x.value, id, user) == Some(x.value.reservations[id])
  {
    hide SettleFrom;
  }

  /** Whose status decides what: confirmed reservations only get their order, cancelled ones are refused, and every other
      is settled without retrying unknown outcomes. */
  lemma ConfirmColumns(s: Store, id: Uuid, user: Uuid, replies: nat -> Reply)
    requires id in s.reservations && s.reservations[id].user == user
    ensures var x := Confirm(s, id, user, replies);
            && (s.reservations[id].status.Confirmed? ==>
                  x.Commit? && x.value == s.(orders := x.value.orders) && Ordered(s.orders, x.value.orders, s.reservations[id]))
            && (s.reservations[id].status.Cancelled? ==> x == Raise(ReservationNotConfirmableError))
            && (!s.reservations[id].status.Confirmed? && !s.reservations[id].status.Cancelled? ==>
                  x == ConfirmRow(s, id, Context(false, 1, None), replies) && x != Raise(ReservationNotConfirmableError))
  {
    SettleFromErrors(ToConfirm, USER_CONTEXT, s.providers, Books(s.offers, s.reservations[id].allocations), 0, replies);
    hide SettleFrom;
  }

  lemma CancelColumns(s: Store, id: Uuid, user: Uuid, replies: nat -> Reply)
    requires id in s.reservations && s.reservations[id].user == user
    ensures var x := Cancel(s, id, user, replies);
            && (s.reservations[id].status.Cancelled? ==> x == Commit(s))
            && (x == Raise(ReservationNotCancellableError) <==> s.reservations[id].status.Confirmed?)
            && (x == Raise(ReservationReconciliationRequiredError) <==> s.reservations[id].status.Confirming?)
            && (!s.reservations[id].status.Cancelled? && !s.reservations[id].status.Confirmed? && !s.reservations[id].status.Confirming? ==>
                  x == ReleaseRow(s, id, ReservationStatus.Cancelled, Context(false, 1, None), replies))
  {
    SettleFromErrors(ToRelease, USER_CONTEXT, s.providers, Books(s.offers, s.reservations[id].allocations), 0, replies);
    hide SettleFrom;
  }

  /** The order that a confirmed reservation has afterwards: the old one, or a new one for its user and items. */
  predicate Ordered(before: seq<Order>, after: seq<Order>, r: Reservation) {
    if exists o | o in before :: o.reservation == r.id then after == before
    else
      && |after| == |before| + 1 && after[..|before|] == before
      && var order := after[|before|];
         && order.reservation == r.id && order.user == r.user && |order.lines| == |r.items|
         && forall i | 0 <= i < |r.items| :: order.lines[i].product == r.items[i].product && order.lines[i].quantity == r.items[i].quantity
  }

  lemma EnsureOrderColumns(orders: seq<Order>, r: Reservation)
    ensures Ordered(orders, EnsureOrder(orders, r), r)
  {
  }

  lemma ConfirmedStatusColumns(t: seq<Allocation>)
    ensures var status := ConfirmedStatus(t);
            && (status.Failed? <==> exists j | 0 <= j < |t| :: t[j].status.Failed?)
            && (status.Confirmed? <==> forall j | 0 <= j < |t| :: t[j].status.Confirmed?)
            && (status.Failed? || status.Confirmed? || status.Confirming?)
  {
    assert forall j | 0 <= j < |t| :: t[j] in t;
  }

  lemma AllReleasedColumns(t: seq<Allocation>)
    ensures AllReleased(t) <==> forall j | 0 <= j < |t| :: t[j].status.Released?
  {
    assert forall j | 0 <= j < |t| :: t[j] in t;
  }

  lemma SettlementTurns(d: Direction, c: Context, s: Store, id: Uuid, replies: nat -> Reply)
    requires id in s.reservations
    requires SettleFrom(d, c, s.providers, Books(s.offers, s.reservations[id].allocations), 0, replies).Commit?
    ensures var r := s.reservations[id].allocations;
            var t := SettleFrom(d, c, s.providers, Books(s.offers, r), 0, replies).value.allocations;
            && |t| == |r|
            && forall j | 0 <= j < |t| ::
                 var p := ProviderRow(s.providers, r[j].key.provider);
                 if d.ToConfirm? then ConfirmTurn(p, r[j], t[j], c, replies(j)) else ReleaseTurn(p, r[j], t[j], c, replies(j))
  {
    var r := s.reservations[id].allocations;
    SettleFromPointwise(d, c, s.providers, Books(s.offers, r), 0, replies);
    var t := SettleFrom(d, c, s.providers, Books(s.offers, r), 0, replies).value.allocations;
    hide SettleFrom, SettledTo, ConfirmTurn, ReleaseTurn;
    forall j | 0 <= j < |t|
      ensures var p := ProviderRow(s.providers, r[j].key.provider);
              if d.ToConfirm? then ConfirmTurn(p, r[j], t[j], c, replies(j)) else ReleaseTurn(p, r[j], t[j], c, replies(j))
    {
      SettledIsTurn(d, c, ProviderRow(s.providers, r[j].key.provider), r[j], replies(j), t[j]);
    }
  }

  /** A committed confirmation: each allocation has its turn, the reservation is FAILED iff one was rejected, CONFIRMED iff
      all are confirmed and CONFIRMING otherwise, and an order is written exactly with CONFIRMED. No other row changes. */
  lemma ConfirmedRowColumns(s: Store, id: Uuid, c: Context, replies: nat -> Reply)
    requires id in s.reservations && ConfirmRow(s, id, c, replies).Commit?
    ensures var t := ConfirmRow(s, id, c, replies).value;
            && id in t.reservations && t.reservations == s.reservations[id := t.reservations[id]]
            && t.products == s.products && t.providers == s.providers
            && var r, u := s.reservations[id], t.reservations[id];
               && u == r.(status := u.status, allocations := u.allocations)
               && |u.allocations| == |r.allocations|
               && (forall j | 0 <= j < |u.allocations| ::
                     ConfirmTurn(ProviderRow(s.providers, r.allocations[j].key.provider), r.allocations[j], u.allocations[j], c, replies(j)))
               && (u.status.Failed? <==> exists j | 0 <= j < |u.allocations| :: u.allocations[j].status.Failed?)
               && (u.status.Confirmed? <==> forall j | 0 <= j < |u.allocations| :: u.allocations[j].status.Confirmed?)
               && (u.status.Failed? || u.status.Confirmed? || u.status.Confirming?)
               && if u.status.Confirmed? then Ordered(s.orders, t.orders, u) else t.orders == s.orders
  {
    SettlementTurns(ToConfirm, c, s, id, replies);
    hide SettleFrom, ConfirmTurn, ReleaseTurn, Ordered, EnsureOrder, ConfirmedStatus;
    var u := ConfirmRow(s, id, c, replies).value.reservations[id];
    ConfirmedStatusColumns(u.allocations);
    EnsureOrderColumns(s.orders, u);
  }

  /** A committed release: each allocation has its turn, and the reservation reaches its terminal status iff all are
      released; otherwise it is RELEASING with that status as its target. No other row and no order changes. */
  lemma ReleasedRowColumns(s: Store, id: Uuid, terminal: ReservationStatus, c: Context, replies: nat -> Reply)
    requires id in s.reservations && ReleaseRow(s, id, terminal, c, replies).Commit?
    ensures var t := ReleaseRow(s, id, terminal, c, replies).value;
            && id in t.reservations && t.reservations == s.reservations[id := t.reservations[id]]
            && t.products == s.products && t.providers == s.providers && t.orders == s.orders
            && var r, u := s.reservations[id], t.reservations[id];
               && u == r.(status := u.status, target := u.target, allocations := u.allocations)
               && |u.allocations| == |r.allocations|
               && (forall j | 0 <= j < |u.allocations| ::
                     ReleaseTurn(ProviderRow(s.providers, r.allocations[j].key.provider), r.allocations[j], u.allocations[j], c, replies(j)))
               && if forall j | 0 <= j < |u.allocations| :: u.allocations[j].status.Released? then u.status == terminal && u.target.None?
                  else u.status.Releasing? && u.target == Some(terminal)
  {
    SettlementTurns(ToRelease, c, s, id, replies);
    hide SettleFrom, ConfirmTurn, ReleaseTurn, AllReleased;
    AllReleasedColumns(SettleFrom(ToRelease, c, s.providers, Books(s.offers, s.reservations[id].allocations), 0, replies).value.allocations);
  }

  // ----- Expiry -----

  /** Where a released row ends up. */
  predicate GivenUp(r: Reservation, terminal: ReservationStatus) {
    (r.status == terminal && r.target.None?) || (r.status.Releasing? && r.target == Some(terminal))
  }

  lemma {:induction false} ReleaseRowsColumns(s: Store, rows: seq<Uuid>, terminal: ReservationStatus, replies: Uuid -> nat -> Reply)
    requires Routing.Distinct(rows) && forall id | id in rows :: id in s.reservations
    requires ReleaseRows(s, rows, terminal, replies).Commit?
    ensures var t := ReleaseRows(s, rows, terminal, replies).value;
            && t.reservations.Keys == s.reservations.Keys
            && t.products == s.products && t.providers == s.providers && t.orders == s.orders
            && (forall id | id in s.reservations && id !in rows :: t.reservations[id] == s.reservations[id])
            && (forall id | id in rows :: GivenUp(t.reservations[id], terminal))
    decreases |rows|
  {
    hide ReleaseRow, GivenUp, ReleaseTurn;
    if rows != [] {
      var id := rows[0];
      assert id in rows;
      ReleasedRow(s, id, terminal, replies(id));
      var t := ReleaseRow(s, id, terminal, USER_CONTEXT, replies(id)).value;
      assert forall x | x in rows[1..] :: x in rows && x != id;
      assert forall x | x in rows :: x == id || x in rows[1..];
      ReleaseRowsColumns(t, rows[1..], terminal, replies);
    }
  }

  lemma ReleasedRow(s: Store, id: Uuid, terminal: ReservationStatus, replies: nat -> Reply)
    requires id in s.reservations && ReleaseRow(s, id, terminal, USER_CONTEXT, replies).Commit?
    ensures var t := ReleaseRow(s, id, terminal, USER_CONTEXT, replies).value;
            && id in t.reservations && t.reservations == s.reservations[id := t.reservations[id]]
            && t.products == s.products && t.providers == s.providers && t.orders == s.orders
            && GivenUp(t.reservations[id], terminal)
  {
    ReleasedRowColumns(s, id, terminal, USER_CONTEXT, replies);
    hide ReleaseRow, ReleaseTurn;
  }

  lemma DueRowsColumns(s: Store, now: int, limit: nat, locked: set<Uuid>)
    ensures var rows := DueRows(s, now, limit, locked);
            && |rows| <= limit && Routing.Distinct(rows)
            && (forall id | id in rows ::
                  id in s.reservations && s.reservations[id].status.Pending? && s.reservations[id].expiresAt <= now && id !in locked)
            && (forall id | id in s.reservations && s.reservations[id].status.Pending? && s.reservations[id].expiresAt <= now && id !in locked ::
                  id in rows || (|rows| == limit && forall x | x in rows ::
                    x in s.reservations && (s.reservations[x].expiresAt < s.reservations[id].expiresAt
                                            || (s.reservations[x].expiresAt == s.reservations[id].expiresAt && x < id))))
  {
    DueRowsAreDue(s, now, limit, locked);
    var rows := DueRows(s, now, limit, locked);
    forall id, x | IsDue(s, id, now) && id !in locked && id !in rows && x in rows
      ensures x in s.reservations && (s.reservations[x].expiresAt < s.reservations[id].expiresAt
                                      || (s.reservations[x].expiresAt == s.reservations[id].expiresAt && x < id))
    {
      DueRowsOldestFirst(s, now, limit, locked, x, id);
    }
    hide DueRows, Routing.Distinct;
  }

  /** A committed batch: it changes at most `limit` rows, all of them pending, overdue and unlocked, which become EXPIRED
      or RELEASING towards EXPIRED; it passes none over for one that expires later, or at the same time with a
      greater id; and if it changes fewer, no such row is left. The batch size it reports is the number of changed rows. */
  lemma ExpireBatchColumns(s: Store, now: int, limit: nat, locked: set<Uuid>, replies: Uuid -> nat -> Reply)
    requires ExpireBatch(s, now, limit, locked, replies).Commit?
    ensures var t := ExpireBatch(s, now, limit, locked, replies).value;
            var changed := set id | id in s.reservations && id in t.reservations && t.reservations[id] != s.reservations[id];
            && t.reservations.Keys == s.reservations.Keys
            && t.products == s.products && t.providers == s.providers && t.orders == s.orders
            && |changed| == |DueRows(s, now, limit, locked)| <= limit
            && (forall id | id in changed ::
                  && s.reservations[id].status.Pending? && s.reservations[id].expiresAt <= now && id !in locked
                  && GivenUp(t.reservations[id], ReservationStatus.Expired))
            && (forall id | id in s.reservations && s.reservations[id].status.Pending? && s.reservations[id].expiresAt <= now && id !in locked ::
                  id in changed || (|changed| == limit && forall x | x in changed ::
                    s.reservations[x].expiresAt < s.reservations[id].expiresAt
                    || (s.reservations[x].expiresAt == s.reservations[id].expiresAt && x < id)))
  {
    DueRowsColumns(s, now, limit, locked);
    var rows := DueRows(s, now, limit, locked);
    ReleaseRowsColumns(s, rows, ReservationStatus.Expired, replies);
    MembersCount(rows);
    hide ReleaseRows, DueRows, Routing.Distinct;
    var t := ExpireBatch(s, now, limit, locked, replies).value;
    assert (set id | id in s.reservations && id in t.reservations && t.reservations[id] != s.reservations[id]) == Members(rows);
  }

  /** Over any run of expiry passes, at whatever clock readings, a reservation that is not pending, or expires after all
      of them, stays as it was. */
  lemma {:induction false} NotOverdueIsKept(s: Store, steps: seq<Step>, id: Uuid)
    requires ValidRun(s, steps) && id in s.reservations
    requires forall step | step in steps ::
               step.ExpireStep? && (!s.reservations[id].status.Pending? || s.reservations[id].expiresAt > step.now)
    ensures id in Run(s, steps).reservations && Run(s, steps).reservations[id] == s.reservations[id]
    decreases |steps|
  {
    if steps != [] {
      var step := steps[0];
      assert step in steps;
      assert forall x | x in steps[1..] :: x in steps;
      if ExpireBatch(s, step.now, step.limit, step.locked, step.batch).Commit? {
        ExpireBatchColumns(s, step.now, step.limit, step.locked, step.batch);
      }
      hide ExpireBatch;
      NotOverdueIsKept(Apply(s, step), steps[1..], id);
    }
  }

  /** What a drain at one clock reading leaves pending and overdue was locked at its last batch; what was not pending, or
      not overdue, is as it was. */
  lemma DrainColumns(s: Store, now: int, limit: nat, locked: nat -> set<Uuid>, answers: Answers)
    requires Live(s) && DueSettle(s, now, answers) && limit > 0
    ensures var x := Drain(s, now, limit, locked, 0, answers);
            && x.Commit?
            && var t := x.value.store;
               && (forall id | id in t.reservations && t.reservations[id].status.Pending? && t.reservations[id].expiresAt <= now ::
                     id in locked(x.value.last))
               && (forall id | id in s.reservations && (!s.reservations[id].status.Pending? || s.reservations[id].expiresAt > now) ::
                     id in t.reservations && t.reservations[id] == s.reservations[id])
  {
    DrainLeavesLocked(s, now, limit, locked, 0, answers);
    var x := Drain(s, now, limit, locked, 0, answers).value;
    var t := x.store;
    forall id | id in t.reservations && t.reservations[id].status.Pending? && t.reservations[id].expiresAt <= now
      ensures id in locked(x.last)
    {
      assert id in DueIds(t, now);
    }
    forall id | id in s.reservations && (!s.reservations[id].status.Pending? || s.reservations[id].expiresAt > now)
      ensures id in t.reservations && t.reservations[id] == s.reservations[id]
    {
      SweepKeepsRest(s, t, now, answers, id);
    }
  }

  lemma SweepKeepsRest(s: Store, t: Store, now: int, answers: Answers, id: Uuid)
    requires ExpireAll(t, now, answers) == ExpireAll(s, now, answers) && DueIds(t, now) <= DueIds(s, now)
    requires id in s.reservations && (!s.reservations[id].status.Pending? || s.reservations[id].expiresAt > now)
    ensures id in t.reservations && t.reservations[id] == s.reservations[id]
  {
    hide ExpiredRow;
    assert id in ExpireAll(s, now, answers).reservations && ExpireAll(s, now, answers).reservations[id] == s.reservations[id];
    assert id !in DueIds(s, now);
    assert id in ExpireAll(t, now, answers).reservations.Keys;
    assert id !in DueIds(t, now);
  }

  /** And enough passes of the worker loop at one clock reading leave nothing pending and overdue that could not be locked. */
  lemma EnoughPassesColumns(s: Store, steps: seq<Step>, now: int, limit: nat, locked: set<Uuid>, answers: Answers)
    requires Live(s) && DueSettle(s, now, answers)
    requires ValidRun(s, steps) && Workers.ExpirePasses(s, steps, now, limit, locked, answers)
    requires Workers.Enough(|steps|, s, now, limit, locked)
    ensures forall id | id in Run(s, steps).reservations && Run(s, steps).reservations[id].status.Pending?
                        && Run(s, steps).reservations[id].expiresAt <= now :: id in locked
  {
    Workers.EnoughPassesSweep(s, steps, now, limit, locked, answers);
    hide Run, ExpireAll, Live, DueSettle, Workers.ExpirePasses, Workers.Enough;
    var t := Run(s, steps);
    forall id | id in t.reservations && t.reservations[id].status.Pending? && t.reservations[id].expiresAt <= now ensures id in locked {
      assert id in DueIds(t, now);
    }
  }

  // ----- Reconciliation -----

  /** An operation whose outcome is unknown, with attempts left, and due. */
  predicate Retriable(op: Option<Operation>, now: int, max: nat) {
    && op.Some? && op.value.status.Unknown? && op.value.attempts < max
    && (op.value.nextAttemptAt.Some? ==> op.value.nextAttemptAt.value <= now)
  }

  /** The worker's query takes reservations with such an operation in their own direction, releasing ones only with a
      target that a release can have; at most the limit, none that is locked, and fewer only when there are no more. */
  lemma SelectionColumns(s: Store, now: int, limit: nat, max: nat, locked: set<Uuid>, rows: seq<Uuid>)
    requires SelectedRows(s, now, limit, max, locked, rows)
    ensures |rows| <= limit && Routing.Distinct(rows)
    ensures forall id | id in rows :: id in s.reservations && id !in locked
    ensures forall id | id in s.reservations && id !in locked ::
              var r := s.reservations[id];
              var wanted :=
                || (r.status.Confirming? && exists j | 0 <= j < |r.allocations| :: Retriable(r.allocations[j].confirmOp, now, max))
                || (r.status.Releasing? && r.target.Some? && (r.target.value.Cancelled? || r.target.value.Expired? || r.target.value.Failed?)
                    && exists j | 0 <= j < |r.allocations| :: Retriable(r.allocations[j].releaseOp, now, max));
              (id in rows ==> wanted) && (wanted ==> id in rows || |rows| == limit)
  {
    hide Routing.Distinct;
    forall id | id in s.reservations
      ensures var r := s.reservations[id];
              Selectable(r, now, max) <==>
                || (r.status.Confirming? && exists j | 0 <= j < |r.allocations| :: Retriable(r.allocations[j].confirmOp, now, max))
                || (r.status.Releasing? && r.target.Some? && (r.target.value.Cancelled? || r.target.value.Expired? || r.target.value.Failed?)
                    && exists j | 0 <= j < |r.allocations| :: Retriable(r.allocations[j].releaseOp, now, max))
    {
      SelectableColumns(s.reservations[id], now, max);
    }
    hide Selectable, Retriable;
  }

  lemma SelectableColumns(r: Reservation, now: int, max: nat)
    ensures Selectable(r, now, max) <==>
              || (r.status.Confirming? && exists j | 0 <= j < |r.allocations| :: Retriable(r.allocations[j].confirmOp, now, max))
              || (r.status.Releasing? && r.target.Some? && (r.target.value.Cancelled? || r.target.value.Expired? || r.target.value.Failed?)
                  && exists j | 0 <= j < |r.allocations| :: Retriable(r.allocations[j].releaseOp, now, max))
  {
    forall j | 0 <= j < |r.allocations|
      ensures RetryDue(r.allocations[j].confirmOp, now, max) == Retriable(r.allocations[j].confirmOp, now, max)
      ensures RetryDue(r.allocations[j].releaseOp, now, max) == Retriable(r.allocations[j].releaseOp, now, max)
      ensures r.allocations[j] in r.allocations
    {
    }
    hide RetryDue, Retriable;
    if a :| a in r.allocations && RetryDue(a.confirmOp, now, max) {
      var j :| 0 <= j < |r.allocations| && r.allocations[j] == a;
      assert Retriable(r.allocations[j].confirmOp, now, max);
    }
    if a :| a in r.allocations && RetryDue(a.releaseOp, now, max) {
      var j :| 0 <= j < |r.allocations| && r.allocations[j] == a;
      assert Retriable(r.allocations[j].releaseOp, now, max);
    }
  }

  /** What a worker does with one reservation: a releasing one is released towards its target, a confirming one is
      confirmed, each allocation in turn and with unknown outcomes retried below the cap. */
  predicate Driven(providers: Providers, r: Reservation, u: Reservation, c: Context, replies: nat -> Reply) {
    if r.status.Releasing? && r.target.Some? then
      && u == r.(status := u.status, target := u.target, allocations := u.allocations)
      && |u.allocations| == |r.allocations|
      && (forall j | 0 <= j < |u.allocations| ::
            ReleaseTurn(ProviderRow(providers, r.allocations[j].key.provider), r.allocations[j], u.allocations[j], c, replies(j)))
      && if forall j | 0 <= j < |u.allocations| :: u.allocations[j].status.Released? then u.status == r.target.value && u.target.None?
         else u.status.Releasing? && u.target == r.target
    else if r.status.Confirming? then
      && u == r.(status := u.status, allocations := u.allocations)
      && |u.allocations| == |r.allocations|
      && (forall j | 0 <= j < |u.allocations| ::
            ConfirmTurn(ProviderRow(providers, r.allocations[j].key.provider), r.allocations[j], u.allocations[j], c, replies(j)))
      && (u.status.Failed? <==> exists j | 0 <= j < |u.allocations| :: u.allocations[j].status.Failed?)
      && (u.status.Confirmed? <==> forall j | 0 <= j < |u.allocations| :: u.allocations[j].status.Confirmed?)
      && (u.status.Failed? || u.status.Confirmed? || u.status.Confirming?)
    else u == r
  }

  lemma ReconcileRowColumns(s: Store, id: Uuid, c: Context, replies: nat -> Reply)
    requires id in s.reservations && ReconcileRow(s, id, c, replies).Commit?
    ensures var t := ReconcileRow(s, id, c, replies).value;
            && id in t.reservations && t.reservations == s.reservations[id := t.reservations[id]]
            && t.providers == s.providers && t.products == s.products
            && Driven(s.providers, s.reservations[id], t.reservations[id], c, replies)
  {
    var r := s.reservations[id];
    if r.status.Releasing? && r.target.Some? {
      ReleasedRowColumns(s, id, r.target.value, c, replies);
    } else if r.status.Confirming? {
      ConfirmedRowColumns(s, id, c, replies);
    } else {
      assert s.reservations[id := r] == s.reservations;
    }
    hide ReleaseRow, ConfirmRow, ReleaseTurn, ConfirmTurn, Ordered;
  }

  /** A committed pass drives exactly the rows that its query took. */
  lemma {:induction false} ReconcileRowsColumns(s: Store, rows: seq<Uuid>, c: Context, replies: Uuid -> nat -> Reply)
    requires Routing.Distinct(rows) && forall id | id in rows :: id in s.reservations
    requires ReconcileRows(s, rows, c, replies).Commit?
    ensures var t := ReconcileRows(s, rows, c, replies).value;
            && t.reservations.Keys == s.reservations.Keys
            && t.providers == s.providers && t.products == s.products
            && (forall id | id in s.reservations && id !in rows :: t.reservations[id] == s.reservations[id])
            && (forall id | id in rows :: Driven(s.providers, s.reservations[id], t.reservations[id], c, replies(id)))
    decreases |rows|
  {
    hide ReconcileRow, Driven;
    if rows != [] {
      var id := rows[0];
      assert id in rows;
      ReconcileRowColumns(s, id, c, replies(id));
      var t := ReconcileRow(s, id, c, replies(id)).value;
      assert forall x | x in rows[1..] :: x in rows && x != id;
      assert forall x | x in rows :: x == id || x in rows[1..];
      ReconcileRowsColumns(t, rows[1..], c, replies);
    }
  }

  /** One pass of the reconciliation worker that is committed. */
  lemma PassColumns(s: Store, step: Step)
    requires Possible(s, step) && step.ReconcileStep? && Attempt(s, step).Commit?
    ensures var t := Apply(s, step);
            && t.reservations.Keys == s.reservations.Keys
            && (forall id | id in s.reservations && id !in step.rows :: t.reservations[id] == s.reservations[id])
            && (forall id | id in step.rows ::
                  id in s.reservations && Driven(s.providers, s.reservations[id], t.reservations[id],
                                                 Context(true, step.maxAttempts, Some(Schedule(step.now, step.baseDelay))), step.batch(id)))
  {
    hide SelectedRows, Driven, ReconcileRows;
    SelectionColumns(s, step.now, step.limit, step.maxAttempts, step.locked, step.rows);
    ReconcileRowsColumns(s, step.rows, WorkerContext(step.now, step.maxAttempts, step.baseDelay), step.batch);
  }
}
