/** What holds in every state of every run that respects the reservation lifecycle. */
module Lifecycle {
  import opened Types
  import opened Stock
  import opened Ledger
  import opened Settlement
  import opened Transactions
  import opened Consistency
  import Routing

  // ----- The lifecycle table -----

  function Opposite(d: Direction): Direction {
    if d.ToConfirm? then ToRelease else ToConfirm
  }

  /** Operation status and allocation status tell the same story. */
  predicate Agrees(d: Direction, op: OperationStatus, status: AllocationStatus) {
    match op
    case Succeeded => status == DoneStatus(d)
    case Unknown => status.Unknown?
    case Failed => status.Held? || (d.ToConfirm? && status.Failed?)
    case InProgress => false
  }

  /** An allocation after a settlement in direction `d`, and none in the other direction. */
  predicate Sided(d: Direction, providers: Providers, a: Allocation) {
    && OperationOf(Opposite(d), a).None?
    && if IsInternal(providers, a.key.provider) then a.status == DoneStatus(d) && OperationOf(d, a).None?
       else OperationOf(d, a).Some? && Agrees(d, OperationOf(d, a).value.status, a.status)
  }

  predicate AllSided(d: Direction, providers: Providers, allocations: seq<Allocation>) {
    forall a | a in allocations :: Sided(d, providers, a)
  }

  predicate AnyFailed(allocations: seq<Allocation>) {
    exists a | a in allocations :: a.status.Failed?
  }

  predicate IsReleaseTarget(t: Option<ReservationStatus>) {
    t.Some? && (t.value.Cancelled? || t.value.Expired? || t.value.Failed?)
  }

  predicate Tabled(providers: Providers, r: Reservation) {
    && (r.status.Releasing? <==> r.target.Some?)
    && (r.target.Some? ==> IsReleaseTarget(r.target))
    && match r.status
       case Pending => |r.allocations| == |r.items| && forall a | a in r.allocations :: FreshlyHeld(a)
       case Confirming => && |r.allocations| == |r.items| && AllSided(ToConfirm, providers, r.allocations)
                          && !AnyFailed(r.allocations) && !AllConfirmed(r.allocations)
       case Confirmed => |r.allocations| == |r.items| && AllSided(ToConfirm, providers, r.allocations) && AllConfirmed(r.allocations)
       case Releasing => AllSided(ToRelease, providers, r.allocations) && !AllReleased(r.allocations)
       case Failed => || (AllSided(ToRelease, providers, r.allocations) && AllReleased(r.allocations))
                      || WasRejected(providers, r)
       case _ => AllSided(ToRelease, providers, r.allocations) && AllReleased(r.allocations)
  }

  /** A provider definitely rejected a confirmation: internal units are already consumed. */
  predicate WasRejected(providers: Providers, r: Reservation) {
    r.status.Failed? && |r.allocations| == |r.items| && AllSided(ToConfirm, providers, r.allocations) && AnyFailed(r.allocations)
  }

  // ----- Lifecycle-respecting runs -----

  /** Callers confirm only what has not been given up, and do not cancel a rejected confirmation.
      `Boundary.RespectsIsExact` shows that nothing harmless is excluded. */
  predicate Respects(s: Store, step: Step) {
    match step
    case ConfirmStep(id, user, _) =>
      Owns(s, id, user) ==>
        var status := s.reservations[id].status;
        status.Pending? || status.Confirming? || status.Confirmed? || status.Cancelled?
        || (status.Failed? && AnyFailed(s.reservations[id].allocations))
    case CancelStep(id, user, _) =>
      Owns(s, id, user) && s.reservations[id].status.Failed? ==> !AnyFailed(s.reservations[id].allocations)
    case _ => true
  }

  ghost predicate LifecycleRun(s: Store, steps: seq<Step>)
    decreases |steps|
  {
    steps == [] || (Possible(s, steps[0]) && Respects(s, steps[0]) && LifecycleRun(Apply(s, steps[0]), steps[1..]))
  }

  lemma {:induction false} LifecycleRunIsValid(s: Store, steps: seq<Step>)
    requires LifecycleRun(s, steps)
    ensures ValidRun(s, steps)
    decreases |steps|
  {
    if steps != [] { LifecycleRunIsValid(Apply(s, steps[0]), steps[1..]); }
  }

  // ----- Conservation -----

  ghost function HeldUnits(s: Store, k: OfferKey): int { Total(HeldAt(k), s.reservations) }

  ghost function ConfirmedUnits(s: Store, k: OfferKey): int { Total(ConfirmedAt(k), s.reservations) }

  /** The reserved counter of every internal offer is the sum of the holds on it; a missing row counts as zero. */
  ghost predicate Conserved(s: Store) {
    forall k: OfferKey | IsInternal(s.providers, k.provider) :: Reserved(s.offers, k) == HeldUnits(s, k)
  }

  ghost predicate AllTabled(s: Store) {
    forall id | id in s.reservations :: Tabled(s.providers, s.reservations[id])
  }

  ghost predicate Live(s: Store) {
    Consistent(s) && AllTabled(s) && Conserved(s)
  }

  /** Units leave an internal offer's stock only by being confirmed. */
  ghost predicate StockAccounted(s: Store, t: Store) {
    forall k: OfferKey | IsInternal(s.providers, k.provider) ::
      OnHand(t.offers, k) + ConfirmedUnits(t, k) == OnHand(s.offers, k) + ConfirmedUnits(s, k)
  }

  lemma RowBacked(s: Store, id: Uuid)
    requires Consistent(s) && Conserved(s) && id in s.reservations
    ensures Backed(s.providers, s.offers, s.reservations[id].allocations)
  {
    forall k: OfferKey | IsInternal(s.providers, k.provider)
      ensures AllocationsWeight(HeldAt(k), s.reservations[id].allocations) <= Reserved(s.offers, k)
    {
      TotalBounds(HeldAt(k), s.reservations);
      assert Weight(HeldAt(k), s.reservations[id]) <= HeldUnits(s, k);
    }
  }

  /** A balanced settlement of one row is a balanced transaction on the store. */
  lemma PutBalanced(s: Store, id: Uuid, account: Account)
    requires Conserved(s) && id in s.reservations
    requires SameBalance(s.providers, Books(s.offers, s.reservations[id].allocations), Books(account.offers, account.reservation.allocations))
    ensures Conserved(Put(s, id, account)) && StockAccounted(s, Put(s, id, account))
  {
    var b, t := Books(s.offers, s.reservations[id].allocations), Books(account.offers, account.reservation.allocations);
    forall k: OfferKey | IsInternal(s.providers, k.provider)
      ensures Reserved(account.offers, k) == HeldUnits(Put(s, id, account), k)
      ensures OnHand(account.offers, k) + ConfirmedUnits(Put(s, id, account), k) == OnHand(s.offers, k) + ConfirmedUnits(s, k)
    {
      assert SameBalanceAt(s.providers, b, t, k);
      TotalUpdate(HeldAt(k), s.reservations, id, account.reservation);
      TotalUpdate(ConfirmedAt(k), s.reservations, id, account.reservation);
    }
  }

  // ----- Settling one row in a live store -----

  lemma SettledIsSided(d: Direction, c: Context, providers: Providers, a: Allocation, reply: Reply, b: Allocation)
    requires NothingInProgress(a)
    requires FreshlyHeld(a) || Sided(d, providers, a)
    requires SettledTo(d, c, ProviderRow(providers, a.key.provider), a, reply, b)
    ensures Sided(d, providers, b)
  {
  }

  lemma SettledRowIsSided(d: Direction, c: Context, providers: Providers, offers: Offers, r: Reservation, replies: nat -> Reply)
    requires RowOk(providers, r)
    requires forall a | a in r.allocations :: FreshlyHeld(a) || Sided(d, providers, a)
    requires SettleFrom(d, c, providers, Books(offers, r.allocations), 0, replies).Commit?
    ensures var b := SettleFrom(d, c, providers, Books(offers, r.allocations), 0, replies).value;
            |b.allocations| == |r.allocations| && AllSided(d, providers, b.allocations)
  {
    SettleFromPointwise(d, c, providers, Books(offers, r.allocations), 0, replies);
    var b := SettleFrom(d, c, providers, Books(offers, r.allocations), 0, replies).value;
    forall i | 0 <= i < |b.allocations| ensures Sided(d, providers, b.allocations[i]) {
      assert r.allocations[i] in r.allocations;
      SettledIsSided(d, c, providers, r.allocations[i], replies(i), b.allocations[i]);
    }
  }

  lemma SettleRowBalanced(d: Direction, c: Context, s: Store, id: Uuid, replies: nat -> Reply)
    requires Live(s) && id in s.reservations
    requires forall a | a in s.reservations[id].allocations :: FreshlyHeld(a) || Sided(d, s.providers, a)
    ensures var b := Books(s.offers, s.reservations[id].allocations);
            match SettleFrom(d, c, s.providers, b, 0, replies)
            case Raise(e) => e != Refusal(d, Internal)
            case Commit(t) => SameBalance(s.providers, b, t)
  {
    RowBacked(s, id);
    forall j | 0 <= j < |s.reservations[id].allocations| ensures Settleable(d, s.providers, s.reservations[id].allocations[j]) {
      assert s.reservations[id].allocations[j] in s.reservations[id].allocations;
    }
    SettleFromBalance(d, c, s.providers, Books(s.offers, s.reservations[id].allocations), 0, replies);
  }

  /** The reservation may be confirmed, also once more after a rejection. */
  predicate Confirmable(providers: Providers, r: Reservation) {
    r.status.Pending? || r.status.Confirming? || WasRejected(providers, r)
  }

  lemma ConfirmedRowIsTabled(s: Store, id: Uuid, c: Context, replies: nat -> Reply)
    requires Live(s) && id in s.reservations && Confirmable(s.providers, s.reservations[id])
    requires ConfirmAll(s.providers, s.offers, s.reservations[id], c, replies).Commit?
    ensures Tabled(s.providers, ConfirmAll(s.providers, s.offers, s.reservations[id], c, replies).value.reservation)
  {
    SettledRowIsSided(ToConfirm, c, s.providers, s.offers, s.reservations[id], replies);
  }

  lemma ConfirmRowLive(s: Store, id: Uuid, c: Context, replies: nat -> Reply)
    requires Live(s) && id in s.reservations && Confirmable(s.providers, s.reservations[id])
    ensures match ConfirmRow(s, id, c, replies)
            case Raise(e) => e != InventoryConfirmationError(Internal) && !e.InventoryReleaseError?
            case Commit(t) => Live(t) && StockAccounted(s, t)
  {
    SettleRowBalanced(ToConfirm, c, s, id, replies);
    SettleFromErrors(ToConfirm, c, s.providers, Books(s.offers, s.reservations[id].allocations), 0, replies);
    if ConfirmRow(s, id, c, replies).Commit? {
      ConfirmRowConsistent(s, id, c, replies);
      var account := ConfirmAll(s.providers, s.offers, s.reservations[id], c, replies).value;
      ConfirmedRowIsTabled(s, id, c, replies);
      PutBalanced(s, id, account);
    }
  }

  lemma {:induction false} SettleFromErrors(d: Direction, c: Context, providers: Providers, b: Books, i: nat, replies: nat -> Reply)
    requires i <= |b.allocations|
    ensures match SettleFrom(d, c, providers, b, i, replies)
            case Raise(e) => e == Refusal(d, Internal) || e == Refusal(d, External) || e == ProviderRaised
            case Commit(_) => true
    decreases |b.allocations| - i
  {
    if i < |b.allocations| {
      var a := b.allocations[i];
      match SettleOne(d, c, ProviderRow(providers, a.key.provider), b.offers, a, replies(i)) {
        case Raise(e) =>
        case Commit(s) => SettleFromErrors(d, c, providers, Books(s.offers, b.allocations[i := s.allocation]), i + 1, replies);
      }
    }
  }

  /** The reservation has not started to confirm. */
  predicate Releasable(providers: Providers, r: Reservation) {
    forall a | a in r.allocations :: FreshlyHeld(a) || Sided(ToRelease, providers, a)
  }

  lemma ReleaseRowLive(s: Store, id: Uuid, terminal: ReservationStatus, c: Context, replies: nat -> Reply)
    requires Live(s) && id in s.reservations && IsReleaseTarget(Some(terminal))
    requires !s.reservations[id].status.Confirmed? && Releasable(s.providers, s.reservations[id])
    ensures match ReleaseRow(s, id, terminal, c, replies)
            case Raise(e) => e != InventoryReleaseError(Internal) && !e.InventoryConfirmationError?
            case Commit(t) => Live(t) && StockAccounted(s, t)
  {
    SettleRowBalanced(ToRelease, c, s, id, replies);
    SettleFromErrors(ToRelease, c, s.providers, Books(s.offers, s.reservations[id].allocations), 0, replies);
    if ReleaseRow(s, id, terminal, c, replies).Commit? {
      ReleaseRowConsistent(s, id, terminal, c, replies);
      var account := ReleaseAll(s.providers, s.offers, s.reservations[id], terminal, c, replies).value;
      SettledRowIsSided(ToRelease, c, s.providers, s.offers, s.reservations[id], replies);
      assert Tabled(s.providers, account.reservation);
      PutBalanced(s, id, account);
    }
  }

  // ----- Batches -----

  /** Errors that only a broken stock ledger could raise. */
  predicate InternalRefusal(e: Error) {
    e == InventoryConfirmationError(Internal) || e == InventoryReleaseError(Internal)
  }

  ghost predicate LiveOutcome(s: Store, x: Tx<Store>) {
    match x
    case Raise(e) => !InternalRefusal(e)
    case Commit(t) => Live(t) && StockAccounted(s, t) && t.providers == s.providers
  }

  lemma AccountedComposes(s: Store, t: Store, u: Store)
    requires StockAccounted(s, t) && StockAccounted(t, u) && t.providers == s.providers
    ensures StockAccounted(s, u)
  {
  }

  lemma {:induction false} ReleaseRowsLive(s: Store, rows: seq<Uuid>, terminal: ReservationStatus, replies: Uuid -> nat -> Reply)
    requires Live(s) && IsReleaseTarget(Some(terminal)) && Routing.Distinct(rows)
    requires forall id | id in rows :: id in s.reservations && s.reservations[id].status.Pending?
    ensures LiveOutcome(s, ReleaseRows(s, rows, terminal, replies))
    decreases |rows|
  {
    if rows != [] {
      ReleaseRowLive(s, rows[0], terminal, USER_CONTEXT, replies(rows[0]));
      match ReleaseRow(s, rows[0], terminal, USER_CONTEXT, replies(rows[0])) {
        case Raise(_) =>
        case Commit(next) =>
          ReleaseRowsLive(next, rows[1..], terminal, replies);
          if ReleaseRows(next, rows[1..], terminal, replies).Commit? {
            AccountedComposes(s, next, ReleaseRows(next, rows[1..], terminal, replies).value);
          }
      }
    }
  }

  lemma ReconcileRowLive(s: Store, id: Uuid, c: Context, replies: nat -> Reply)
    requires Live(s) && id in s.reservations
    ensures LiveOutcome(s, ReconcileRow(s, id, c, replies))
  {
    var r := s.reservations[id];
    assert Tabled(s.providers, r);
    if r.status.Releasing? {
      ReleaseRowLive(s, id, r.target.value, c, replies);
    } else if r.status.Confirming? {
      ConfirmRowLive(s, id, c, replies);
    }
  }

  lemma {:induction false} ReconcileRowsLive(s: Store, rows: seq<Uuid>, c: Context, replies: Uuid -> nat -> Reply)
    requires Live(s) && forall id | id in rows :: id in s.reservations
    ensures LiveOutcome(s, ReconcileRows(s, rows, c, replies))
    decreases |rows|
  {
    if rows != [] {
      ReconcileRowLive(s, rows[0], c, replies(rows[0]));
      match ReconcileRow(s, rows[0], c, replies(rows[0])) {
        case Raise(_) =>
        case Commit(next) =>
          ReconcileRowsLive(next, rows[1..], c, replies);
          if ReconcileRows(next, rows[1..], c, replies).Commit? {
            AccountedComposes(s, next, ReconcileRows(next, rows[1..], c, replies).value);
          }
      }
    }
  }

  // ----- Create -----

  /** Internal allocations that are all released hold nothing. */
  lemma {:induction false} SidedHoldsNothing(providers: Providers, allocations: seq<Allocation>, k: OfferKey)
    requires AllSided(ToRelease, providers, allocations) && IsInternal(providers, k.provider)
    ensures AllocationsWeight(HeldAt(k), allocations) == 0
  {
    if allocations != [] {
      assert allocations[0] in allocations;
      assert forall a | a in allocations[1..] :: a in allocations;
      SidedHoldsNothing(providers, allocations[1..], k);
    }
  }

  lemma {:induction false} FreshConfirmsNothing(allocations: seq<Allocation>, k: OfferKey)
    requires forall a | a in allocations :: !a.status.Confirmed?
    ensures AllocationsWeight(ConfirmedAt(k), allocations) == 0
  {
    if allocations != [] {
      assert allocations[0] in allocations;
      assert forall a | a in allocations[1..] :: a in allocations;
      FreshConfirmsNothing(allocations[1..], k);
    }
  }

  /** The holds of a create are backed by what they just reserved. */
  lemma HoldsBacked(providers: Providers, offers: Offers, h: Holding)
    requires OffersOk(offers)
    requires forall k: OfferKey :: HoldBalanceAt(providers, Books(offers, []), Books(h.offers, h.allocations), k)
    ensures Backed(providers, h.offers, h.allocations)
  {
    forall k: OfferKey | IsInternal(providers, k.provider)
      ensures AllocationsWeight(HeldAt(k), h.allocations) <= Reserved(h.offers, k)
    {
      assert HoldBalanceAt(providers, Books(offers, []), Books(h.offers, h.allocations), k);
    }
  }

  /** A compensated create, up to the point where it is stored. */
  lemma CompensationSettles(s: Store, q: Reservation, h: Holding, releases: nat -> Reply)
    requires IsDraft(q)
    requires Consistent(s) && InsertError(s, q).None?
    requires OffersOk(h.offers) && HeldFor(s.providers, h.allocations, q.items)
    requires forall k: OfferKey :: HoldBalanceAt(s.providers, Books(s.offers, []), Books(h.offers, h.allocations), k)
    ensures var r := q.(allocations := h.allocations);
            match ReleaseAll(s.providers, h.offers, r, ReservationStatus.Failed, USER_CONTEXT, releases)
            case Raise(e) => e != InventoryReleaseError(Internal) && !e.InventoryConfirmationError?
            case Commit(account) =>
              && Tabled(s.providers, account.reservation)
              && AllSided(ToRelease, s.providers, account.reservation.allocations)
              && SameBalance(s.providers, Books(h.offers, h.allocations), Books(account.offers, account.reservation.allocations))
  {
    DraftOk(s, q);
    var r := q.(allocations := h.allocations);
    assert RowOk(s.providers, r);
    HoldsBacked(s.providers, s.offers, h);
    forall j | 0 <= j < |h.allocations| ensures Settleable(ToRelease, s.providers, h.allocations[j]) {
      assert h.allocations[j] in h.allocations;
    }
    SettleFromBalance(ToRelease, USER_CONTEXT, s.providers, Books(h.offers, h.allocations), 0, releases);
    SettleFromErrors(ToRelease, USER_CONTEXT, s.providers, Books(h.offers, h.allocations), 0, releases);
    if SettleFrom(ToRelease, USER_CONTEXT, s.providers, Books(h.offers, h.allocations), 0, releases).Commit? {
      SettledRowIsSided(ToRelease, USER_CONTEXT, s.providers, h.offers, r, releases);
    }
  }

  /** Every item has exactly one held allocation, on its own product, for the quantity requested. */
  predicate FullyHeld(r: Reservation) {
    && |r.allocations| == |r.items|
    && forall i | 0 <= i < |r.items| ::
         r.allocations[i].status.Held? && r.allocations[i].key.product == r.items[i].product
         && r.allocations[i].quantity == r.items[i].quantity
  }

  /** A failed create leaves either nothing behind or a compensation still to be finished. */
  predicate FailedCreate(r: Reservation) {
    r.status.Failed? || (r.status.Releasing? && r.target == Some(ReservationStatus.Failed))
  }

  /** The books after holding the items of a request. */
  lemma RequestHeld(s: Store, q: Reservation, holds: nat -> Uuid -> Routing.CandidateReply)
    requires IsDraft(q)
    requires Consistent(s) && InsertError(s, q).None?
    requires HoldItems(s.providers, s.offers, q.items, 0, [], holds).Commit?
    ensures var h := HoldItems(s.providers, s.offers, q.items, 0, [], holds).value;
            && OffersOk(h.offers) && HeldFor(s.providers, h.allocations, q.items)
            && (h.complete ==> |h.allocations| == |q.items|)
            && forall k: OfferKey :: HoldBalanceAt(s.providers, Books(s.offers, []), Books(h.offers, h.allocations), k)
  {
    DraftOk(s, q);
    HoldItemsOk(s.providers, s.offers, q.items, [], holds);
    var h := HoldItems(s.providers, s.offers, q.items, 0, [], holds).value;
    forall k: OfferKey ensures HoldBalanceAt(s.providers, Books(s.offers, []), Books(h.offers, h.allocations), k) {
      HoldItemsBalance(s.providers, s.offers, q.items, [], holds, k);
    }
  }

  lemma HeldRequestIsComplete(s: Store, q: Reservation, h: Holding)
    requires IsDraft(q)
    requires InsertError(s, q).None?
    requires HeldFor(s.providers, h.allocations, q.items) && |h.allocations| == |q.items|
    ensures var r := q.(allocations := h.allocations); FullyHeld(r) && Tabled(s.providers, r)
  {
    assert forall i | 0 <= i < |h.allocations| :: h.allocations[i] in h.allocations;
  }

  lemma CompensationRestores(s: Store, q: Reservation, h: Holding, releases: nat -> Reply)
    requires IsDraft(q)
    requires Consistent(s) && InsertError(s, q).None?
    requires OffersOk(h.offers) && HeldFor(s.providers, h.allocations, q.items)
    requires forall k: OfferKey :: HoldBalanceAt(s.providers, Books(s.offers, []), Books(h.offers, h.allocations), k)
    requires ReleaseAll(s.providers, h.offers, q.(allocations := h.allocations), ReservationStatus.Failed, USER_CONTEXT, releases).Commit?
    ensures var x := ReleaseAll(s.providers, h.offers, q.(allocations := h.allocations), ReservationStatus.Failed, USER_CONTEXT, releases).value;
            && FailedCreate(x.reservation)
            && forall k: OfferKey :: Reserved(x.offers, k) == Reserved(s.offers, k)
  {
    CompensationSettles(s, q, h, releases);
    var x := ReleaseAll(s.providers, h.offers, q.(allocations := h.allocations), ReservationStatus.Failed, USER_CONTEXT, releases).value;
    var t := Books(x.offers, x.reservation.allocations);
    forall k: OfferKey ensures Reserved(t.offers, k) == Reserved(s.offers, k) {
      assert HoldBalanceAt(s.providers, Books(s.offers, []), Books(h.offers, h.allocations), k);
      assert SameBalanceAt(s.providers, Books(h.offers, h.allocations), t, k);
      if IsInternal(s.providers, k.provider) { SidedHoldsNothing(s.providers, t.allocations, k); }
    }
  }

  lemma {:induction false} HoldItemsErrors(providers: Providers, offers: Offers, items: seq<Item>, i: nat, allocations: seq<Allocation>,
                                           replies: nat -> Uuid -> Routing.CandidateReply)
    requires i <= |items|
    ensures var x := HoldItems(providers, offers, items, i, allocations, replies);
            x.Raise? ==> x.error == UnknownProviderOutcomeError || x.error == ProviderRaised
    decreases |items| - i
  {
    if i < |items| {
      var r := Routing.RouteItem(providers, offers, items[i], replies(i));
      if r.end.RoutedTo? {
        HoldItemsErrors(providers, r.offers, items, i + 1, allocations + [HeldAllocation(items[i], r.end.hold)], replies);
      }
    }
  }

  /** All or nothing: a create either holds every item in full, or fails and leaves every offer's reserved
      counter exactly as it found it. It never fails on the internal stock it has just reserved. */
  lemma CreateAllOrNothing(s: Store, q: Reservation, holds: nat -> Uuid -> Routing.CandidateReply, releases: nat -> Reply)
    requires IsDraft(q)
    requires Consistent(s)
    ensures match AddWithHold(s, q, holds, releases)
            case Raise(e) => !InternalRefusal(e)
            case Commit(added) =>
              && q.id in added.store.reservations
              && var r := added.store.reservations[q.id];
                 && Tabled(s.providers, r)
                 && (added.held ==> r.status.Pending? && FullyHeld(r))
                 && (!added.held ==> FailedCreate(r) && forall k: OfferKey :: Reserved(added.store.offers, k) == Reserved(s.offers, k))
  {
    HoldItemsErrors(s.providers, s.offers, q.items, 0, [], holds);
    if InsertError(s, q).None? && HoldItems(s.providers, s.offers, q.items, 0, [], holds).Commit? {
      RequestHeld(s, q, holds);
      var h := HoldItems(s.providers, s.offers, q.items, 0, [], holds).value;
      if h.complete {
        HeldRequestIsComplete(s, q, h);
      } else {
        CompensationSettles(s, q, h, releases);
        if ReleaseAll(s.providers, h.offers, q.(allocations := h.allocations), ReservationStatus.Failed, USER_CONTEXT, releases).Commit? {
          CompensationRestores(s, q, h, releases);
        }
      }
    }
  }

  /** A new row's holds are exactly the newly reserved units. */
  ghost predicate NewRowBalanced(providers: Providers, before: Offers, account: Account) {
    forall k: OfferKey | IsInternal(providers, k.provider) ::
      && Reserved(account.offers, k) - AllocationsWeight(HeldAt(k), account.reservation.allocations) == Reserved(before, k)
      && OnHand(account.offers, k) + AllocationsWeight(ConfirmedAt(k), account.reservation.allocations) == OnHand(before, k)
  }

  lemma PutNewBalanced(s: Store, id: Uuid, account: Account)
    requires Conserved(s) && id !in s.reservations
    requires NewRowBalanced(s.providers, s.offers, account)
    ensures Conserved(Put(s, id, account)) && StockAccounted(s, Put(s, id, account))
  {
    forall k: OfferKey | IsInternal(s.providers, k.provider)
      ensures Reserved(account.offers, k) == HeldUnits(Put(s, id, account), k)
      ensures OnHand(account.offers, k) + ConfirmedUnits(Put(s, id, account), k) == OnHand(s.offers, k) + ConfirmedUnits(s, k)
    {
      TotalUpdate(HeldAt(k), s.reservations, id, account.reservation);
      TotalUpdate(ConfirmedAt(k), s.reservations, id, account.reservation);
    }
  }

  lemma HeldRowBalanced(providers: Providers, before: Offers, h: Holding, r: Reservation)
    requires forall a | a in h.allocations :: FreshlyHeld(a)
    requires forall k: OfferKey :: HoldBalanceAt(providers, Books(before, []), Books(h.offers, h.allocations), k)
    requires r.allocations == h.allocations
    ensures NewRowBalanced(providers, before, Account(h.offers, r))
  {
    forall k: OfferKey | IsInternal(providers, k.provider)
      ensures Reserved(h.offers, k) - AllocationsWeight(HeldAt(k), h.allocations) == Reserved(before, k)
      ensures OnHand(h.offers, k) + AllocationsWeight(ConfirmedAt(k), h.allocations) == OnHand(before, k)
    {
      assert HoldBalanceAt(providers, Books(before, []), Books(h.offers, h.allocations), k);
      FreshConfirmsNothing(h.allocations, k);
    }
  }

  lemma CompensatedRowBalanced(providers: Providers, before: Offers, h: Holding, account: Account)
    requires forall a | a in h.allocations :: FreshlyHeld(a)
    requires forall k: OfferKey :: HoldBalanceAt(providers, Books(before, []), Books(h.offers, h.allocations), k)
    requires SameBalance(providers, Books(h.offers, h.allocations), Books(account.offers, account.reservation.allocations))
    ensures NewRowBalanced(providers, before, account)
  {
    forall k: OfferKey | IsInternal(providers, k.provider)
      ensures Reserved(account.offers, k) - AllocationsWeight(HeldAt(k), account.reservation.allocations) == Reserved(before, k)
      ensures OnHand(account.offers, k) + AllocationsWeight(ConfirmedAt(k), account.reservation.allocations) == OnHand(before, k)
    {
      assert HoldBalanceAt(providers, Books(before, []), Books(h.offers, h.allocations), k);
      assert SameBalanceAt(providers, Books(h.offers, h.allocations), Books(account.offers, account.reservation.allocations), k);
      FreshConfirmsNothing(h.allocations, k);
    }
  }

  /** The ledger part of a committed create. */
  lemma AddWithHoldBalanced(s: Store, q: Reservation, holds: nat -> Uuid -> Routing.CandidateReply, releases: nat -> Reply)
    requires IsDraft(q)
    requires Consistent(s) && Conserved(s)
    requires AddWithHold(s, q, holds, releases).Commit?
    ensures var t := AddWithHold(s, q, holds, releases).value.store;
            Conserved(t) && StockAccounted(s, t) && t.providers == s.providers
  {
    RequestHeld(s, q, holds);
    DraftOk(s, q);
    var h := HoldItems(s.providers, s.offers, q.items, 0, [], holds).value;
    var r := q.(allocations := h.allocations);
    if h.complete {
      HeldRowBalanced(s.providers, s.offers, h, r);
      PutNewBalanced(s, q.id, Account(h.offers, r));
    } else {
      CompensationSettles(s, q, h, releases);
      var account := ReleaseAll(s.providers, h.offers, r, ReservationStatus.Failed, USER_CONTEXT, releases).value;
      CompensatedRowBalanced(s.providers, s.offers, h, account);
      PutNewBalanced(s, q.id, account);
    }
  }

  lemma AddWithHoldLive(s: Store, q: Reservation, holds: nat -> Uuid -> Routing.CandidateReply, releases: nat -> Reply)
    requires IsDraft(q)
    requires Live(s)
    requires AddWithHold(s, q, holds, releases).Commit?
    ensures var t := AddWithHold(s, q, holds, releases).value.store;
            Live(t) && StockAccounted(s, t) && t.providers == s.providers
  {
    AddWithHoldConsistent(s, q, holds, releases);
    CreateAllOrNothing(s, q, holds, releases);
    AddWithHoldBalanced(s, q, holds, releases);
    AddWithHoldAddsOneRow(s, q, holds, releases);
  }

  // ----- Every step, every run -----

  /** The error a step's caller sees, if any. */
  ghost function Failure(s: Store, step: Step): Option<Error>
    requires Possible(s, step)
  {
    if step.CreateStep? then
      match Create(s, step.request, step.holds, step.compensation).answer
      case Raise(e) => Some(e)
      case Commit(_) => None
    else
      match Attempt(s, step)
      case Raise(e) => Some(e)
      case Commit(_) => None
  }

  predicate IsOperatorStep(step: Step) {
    step.SetLevelStep? || step.RemoveLevelStep? || step.ConfigureStep?
  }

  lemma CreateLive(s: Store, q: CreateRequest, holds: nat -> Uuid -> Routing.CandidateReply, releases: nat -> Reply)
    requires Live(s)
    ensures var x := Create(s, q, holds, releases);
            && LiveOutcome(s, Commit(x.store))
            && (x.answer.Raise? ==> !InternalRefusal(x.answer.error))
  {
    assert StockAccounted(s, s) && Consistent(s);
    hide Create, AddWithHold, Live, Consistent, StockAccounted, Tabled, FullyHeld, FailedCreate, QuantitiesValid, KeyTaken, Draft;
    if !QuantitiesValid(q.items) || KeyTaken(s.reservations, q.user, q.key) {
      CreateOtherwise(s, q, holds, releases);
    } else {
      CreateWhenFree(s, q, holds, releases);
      DraftIsDraft(q);
      CreateAllOrNothing(s, Draft(q), holds, releases);
      if AddWithHold(s, Draft(q), holds, releases).Commit? { AddWithHoldLive(s, Draft(q), holds, releases); }
    }
  }

  lemma ConfirmLive(s: Store, id: Uuid, user: Uuid, replies: nat -> Reply)
    requires Live(s) && Respects(s, ConfirmStep(id, user, replies))
    ensures LiveOutcome(s, Confirm(s, id, user, replies))
  {
    if Owns(s, id, user) && !s.reservations[id].status.Confirmed? && !s.reservations[id].status.Cancelled? {
      assert Tabled(s.providers, s.reservations[id]);
      ConfirmRowLive(s, id, USER_CONTEXT, replies);
    }
  }

  lemma CancelLive(s: Store, id: Uuid, user: Uuid, replies: nat -> Reply)
    requires Live(s) && Respects(s, CancelStep(id, user, replies))
    ensures LiveOutcome(s, Cancel(s, id, user, replies))
  {
    if Owns(s, id, user) {
      var r := s.reservations[id];
      assert Tabled(s.providers, r);
      if !r.status.Cancelled? && !r.status.Confirmed? && !r.status.Confirming? {
        ReleaseRowLive(s, id, ReservationStatus.Cancelled, USER_CONTEXT, replies);
      }
    }
  }

  lemma TabledIgnoresCapabilities(before: Providers, after: Providers, r: Reservation)
    requires KindsKept(before, after) && Tabled(before, r)
    requires forall a | a in r.allocations :: a.key.provider in before
    ensures Tabled(after, r)
  {
    assert forall d, a | a in r.allocations && Sided(d, before, a) :: Sided(d, after, a);
  }

  lemma UnknownProviderHoldsNothing(s: Store, k: OfferKey)
    requires Consistent(s) && k.provider !in s.providers
    ensures HeldUnits(s, k) == 0 && Reserved(s.offers, k) == 0
  {
    forall id | id in s.reservations ensures Weight(HeldAt(k), s.reservations[id]) == 0 {
      ElsewhereWeighsNothing(HeldAt(k), k, s.reservations[id].allocations);
    }
    TotalZero(HeldAt(k), s.reservations);
  }

  lemma {:induction false} ElsewhereWeighsNothing(g: Gauge, k: OfferKey, allocations: seq<Allocation>)
    requires g == HeldAt(k)
    requires forall a | a in allocations :: a.key != k
    ensures AllocationsWeight(g, allocations) == 0
  {
    if allocations != [] {
      assert allocations[0] in allocations;
      assert forall a | a in allocations[1..] :: a in allocations;
      ElsewhereWeighsNothing(g, k, allocations[1..]);
    }
  }

  lemma OperatorLive(s: Store, step: Step)
    requires Live(s) && Possible(s, step) && IsOperatorStep(step)
    ensures Live(Apply(s, step))
  {
    OperatorConsistent(s, step);
    var t := Apply(s, step);
    if step.ConfigureStep? {
      forall id | id in t.reservations ensures Tabled(t.providers, t.reservations[id]) {
        assert RowOk(s.providers, s.reservations[id]);
        TabledIgnoresCapabilities(s.providers, t.providers, s.reservations[id]);
      }
      forall k: OfferKey | IsInternal(t.providers, k.provider) ensures Reserved(t.offers, k) == HeldUnits(t, k) {
        if k.provider !in s.providers { UnknownProviderHoldsNothing(s, k); }
      }
    }
  }

  /** Every step of a lifecycle-respecting run keeps the ledger, the table and consistency, and never fails
      on internal stock; only operator steps change what internal stock there is to account for. */
  lemma StepLive(s: Store, step: Step)
    requires Live(s) && Possible(s, step) && Respects(s, step)
    ensures Live(Apply(s, step))
    ensures !IsOperatorStep(step) ==> StockAccounted(s, Apply(s, step)) && Apply(s, step).providers == s.providers
    ensures Failure(s, step).Some? ==> !InternalRefusal(Failure(s, step).value)
  {
    match step {
      case CreateStep(q, holds, compensation) => CreateLive(s, q, holds, compensation);
      case ConfirmStep(id, user, replies) => ConfirmLive(s, id, user, replies);
      case CancelStep(id, user, replies) => CancelLive(s, id, user, replies);
      case ExpireStep(now, limit, locked, batch) =>
        DueRowsAreDue(s, now, limit, locked);
        ReleaseRowsLive(s, DueRows(s, now, limit, locked), ReservationStatus.Expired, batch);
      case ReconcileStep(now, _, maxAttempts, baseDelay, _, rows, batch) =>
        ReconcileRowsLive(s, rows, WorkerContext(now, maxAttempts, baseDelay), batch);
      case _ => OperatorLive(s, step);
    }
  }

  lemma {:induction false} RunLive(s: Store, steps: seq<Step>)
    requires Live(s) && LifecycleRun(s, steps)
    ensures ValidRun(s, steps) && Live(Run(s, steps))
    decreases |steps|
  {
    if steps != [] {
      StepLive(s, steps[0]);
      RunLive(Apply(s, steps[0]), steps[1..]);
    }
  }

  lemma EmptyStoreLive()
    ensures Live(EMPTY_STORE)
  {
  }

  /** Hold conservation: after every lifecycle-respecting run, what an internal offer shows as reserved is the
      sum of the units held on it, and an external offer shows nothing reserved. */
  lemma HoldConservation(steps: seq<Step>, k: OfferKey)
    requires LifecycleRun(EMPTY_STORE, steps)
    ensures ValidRun(EMPTY_STORE, steps)
    ensures var s := Run(EMPTY_STORE, steps);
            Reserved(s.offers, k) == if IsInternal(s.providers, k.provider) then HeldUnits(s, k) else 0
  {
    EmptyStoreLive();
    RunLive(EMPTY_STORE, steps);
  }

  /** `remove_level` succeeds on an existing offer exactly when no live hold stands on it or the offer is external:
      an external offer shows nothing reserved, so it goes whatever is held there. */
  lemma RemovalSucceedsIff(steps: seq<Step>, k: OfferKey)
    requires LifecycleRun(EMPTY_STORE, steps)
    requires ValidRun(EMPTY_STORE, steps) && k in Run(EMPTY_STORE, steps).offers
    ensures var s := Run(EMPTY_STORE, steps);
            RemoveStock(s, k).Commit? <==> HeldUnits(s, k) == 0 || !IsInternal(s.providers, k.provider)
  {
    HoldConservation(steps, k);
  }

  /** The lifecycle table: every reservation of every lifecycle-respecting run is in one of its rows. */
  lemma LifecycleTable(steps: seq<Step>, id: Uuid)
    requires LifecycleRun(EMPTY_STORE, steps)
    requires ValidRun(EMPTY_STORE, steps) && id in Run(EMPTY_STORE, steps).reservations
    ensures var s := Run(EMPTY_STORE, steps);
            var r := s.reservations[id];
            && Tabled(s.providers, r)
            && (r.status.Pending? ==> FullyHeld(r))
            && (forall a | a in r.allocations :: NothingInProgress(a))
  {
    EmptyStoreLive();
    RunLive(EMPTY_STORE, steps);
    var s := Run(EMPTY_STORE, steps);
    assert RowOk(s.providers, s.reservations[id]);
    assert forall i | 0 <= i < |s.reservations[id].allocations| :: s.reservations[id].allocations[i] in s.reservations[id].allocations;
  }

  /** The guarded updates of confirmation and release never miss: no lifecycle-respecting step fails on internal stock. */
  lemma InternalStockNeverFails(steps: seq<Step>, step: Step)
    requires LifecycleRun(EMPTY_STORE, steps) && ValidRun(EMPTY_STORE, steps)
    requires Possible(Run(EMPTY_STORE, steps), step) && Respects(Run(EMPTY_STORE, steps), step)
    ensures var f := Failure(Run(EMPTY_STORE, steps), step);
            f != Some(InventoryConfirmationError(Internal)) && f != Some(InventoryReleaseError(Internal))
  {
    EmptyStoreLive();
    RunLive(EMPTY_STORE, steps);
    StepLive(Run(EMPTY_STORE, steps), step);
  }

  lemma {:induction false} QuietRunAccounts(s: Store, steps: seq<Step>)
    requires Live(s) && LifecycleRun(s, steps)
    requires forall step | step in steps :: !IsOperatorStep(step)
    ensures ValidRun(s, steps)
    ensures StockAccounted(s, Run(s, steps)) && Run(s, steps).providers == s.providers
    decreases |steps|
  {
    if steps != [] {
      StepLive(s, steps[0]);
      QuietRunAccounts(Apply(s, steps[0]), steps[1..]);
      AccountedComposes(s, Apply(s, steps[0]), Run(s, steps));
    }
  }

  /** No oversell: from any live store, along any stretch without operator changes, the units held plus the units
      confirmed since never exceed the stock the stretch started from. */
  lemma NoOversell(s: Store, steps: seq<Step>, k: OfferKey)
    requires Live(s) && LifecycleRun(s, steps)
    requires forall step | step in steps :: !IsOperatorStep(step)
    requires IsInternal(s.providers, k.provider)
    ensures ValidRun(s, steps)
    ensures var t := Run(s, steps);
            && OnHand(t.offers, k) + ConfirmedUnits(t, k) == OnHand(s.offers, k) + ConfirmedUnits(s, k)
            && HeldUnits(t, k) + (ConfirmedUnits(t, k) - ConfirmedUnits(s, k)) <= OnHand(s.offers, k)
  {
    QuietRunAccounts(s, steps);
    RunLive(s, steps);
    var t := Run(s, steps);
    assert Reserved(t.offers, k) == HeldUnits(t, k);
  }
}
