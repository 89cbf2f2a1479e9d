/** Where the lifecycle restriction comes from: what the guards of confirm and cancel let through. */
module Boundary {
  import opened Types
  import opened Stock
  import opened Ledger
  import opened Settlement
  import opened Transactions
  import opened Consistency
  import opened Lifecycle

  /** Reserved units beyond the holds of these allocations. */
  function Surplus(b: Books, k: OfferKey): int {
    Reserved(b.offers, k) - AllocationsWeight(HeldAt(k), b.allocations)
  }

  predicate AllSettleable(d: Direction, providers: Providers, allocations: seq<Allocation>) {
    forall a | a in allocations :: Settleable(d, providers, a)
  }

  /** Settling an internal allocation that is not held takes its units from somebody else's hold. */
  lemma SurplusAfterOne(d: Direction, c: Context, providers: Providers, b: Books, i: nat, reply: Reply, k: OfferKey)
    requires i < |b.allocations| && b.allocations[i].quantity > 0
    requires SettleOne(d, c, ProviderRow(providers, b.allocations[i].key.provider), b.offers, b.allocations[i], reply).Commit?
    requires IsInternal(providers, k.provider)
    ensures var a := b.allocations[i];
            var s := SettleOne(d, c, ProviderRow(providers, a.key.provider), b.offers, a, reply).value;
            Surplus(Books(s.offers, b.allocations[i := s.allocation]), k)
            == Surplus(b, k) - if a.key == k && !Settleable(d, providers, a) then a.quantity else 0
  {
    var a := b.allocations[i];
    var s := SettleOne(d, c, ProviderRow(providers, a.key.provider), b.offers, a, reply).value;
    UpdateAllocation(HeldAt(k), b.allocations, i, s.allocation);
  }

  lemma {:induction false} SurplusFalls(d: Direction, c: Context, providers: Providers, b: Books, i: nat, replies: nat -> Reply, k: OfferKey)
    requires i <= |b.allocations| && QuantitiesPositive(b.allocations)
    requires SettleFrom(d, c, providers, b, i, replies).Commit?
    requires IsInternal(providers, k.provider)
    ensures var t := SettleFrom(d, c, providers, b, i, replies).value;
            && Surplus(t, k) <= Surplus(b, k)
            && ((exists j | i <= j < |b.allocations| :: b.allocations[j].key == k && !Settleable(d, providers, b.allocations[j]))
                ==> Surplus(t, k) < Surplus(b, k))
    decreases |b.allocations| - i
  {
    if i < |b.allocations| {
      var a := b.allocations[i];
      assert a in b.allocations;
      SurplusAfterOne(d, c, providers, b, i, replies(i), k);
      var s := SettleOne(d, c, ProviderRow(providers, a.key.provider), b.offers, a, replies(i)).value;
      var next := Books(s.offers, b.allocations[i := s.allocation]);
      assert s.allocation.quantity == a.quantity;
      SurplusFalls(d, c, providers, next, i + 1, replies, k);
      assert forall j | i < j < |b.allocations| :: next.allocations[j] == b.allocations[j];
    }
  }

  /** A committed settlement of a row keeps the ledger exactly when every internal allocation was still
      held or already at the end of that direction. */
  lemma SettlementConservesIff(d: Direction, c: Context, s: Store, id: Uuid, replies: nat -> Reply, account: Account)
    requires Live(s) && id in s.reservations
    requires var b := Books(s.offers, s.reservations[id].allocations);
             SettleFrom(d, c, s.providers, b, 0, replies) == Commit(Books(account.offers, account.reservation.allocations))
    ensures Conserved(Put(s, id, account)) <==> AllSettleable(d, s.providers, s.reservations[id].allocations)
  {
    var b := Books(s.offers, s.reservations[id].allocations);
    var t := Books(account.offers, account.reservation.allocations);
    assert RowOk(s.providers, s.reservations[id]);
    if AllSettleable(d, s.providers, b.allocations) {
      RowBacked(s, id);
      SettleFromBalance(d, c, s.providers, b, 0, replies);
      PutBalanced(s, id, account);
    } else {
      var j :| 0 <= j < |b.allocations| && !Settleable(d, s.providers, b.allocations[j]);
      var k := b.allocations[j].key;
      SurplusFalls(d, c, s.providers, b, 0, replies, k);
      TotalUpdate(HeldAt(k), s.reservations, id, account.reservation);
      assert Reserved(account.offers, k) < HeldUnits(Put(s, id, account), k);
    }
  }

  /** Confirm keeps every offer's reserved counter equal to its holds exactly when none of the reservation's
      internal allocations has already been released. */
  lemma ConfirmConservesIff(s: Store, id: Uuid, user: Uuid, replies: nat -> Reply)
    requires Live(s) && Owns(s, id, user) && Confirm(s, id, user, replies).Commit?
    ensures Conserved(Confirm(s, id, user, replies).value)
            <==> forall a | a in s.reservations[id].allocations && IsInternal(s.providers, a.key.provider) :: !a.status.Released?
  {
    var r := s.reservations[id];
    assert Tabled(s.providers, r);
    if !r.status.Confirmed? {
      hide SettleFrom;
      var account := ConfirmAll(s.providers, s.offers, r, USER_CONTEXT, replies).value;
      SettlementConservesIff(ToConfirm, USER_CONTEXT, s, id, replies, account);
      var t := Confirm(s, id, user, replies).value;
      assert Conserved(t) <==> Conserved(Put(s, id, account));
    }
  }

  /** Cancel does exactly when none of them has been consumed; on a rejected confirmation that fails for any
      reservation with an internal item. */
  lemma CancelConservesIff(s: Store, id: Uuid, user: Uuid, replies: nat -> Reply)
    requires Live(s) && Owns(s, id, user) && Cancel(s, id, user, replies).Commit?
    ensures Conserved(Cancel(s, id, user, replies).value)
            <==> forall a | a in s.reservations[id].allocations && IsInternal(s.providers, a.key.provider) :: !a.status.Confirmed?
  {
    var r := s.reservations[id];
    assert Tabled(s.providers, r);
    if !r.status.Cancelled? {
      var account := ReleaseAll(s.providers, s.offers, r, ReservationStatus.Cancelled, USER_CONTEXT, replies).value;
      SettlementConservesIff(ToRelease, USER_CONTEXT, s, id, replies, account);
    }
  }

  // ----- The whole invariant -----

  /** Provider operations do not go away: an external allocation settled first one way and then the other fits
      neither side of the lifecycle table. */
  lemma SettledBothWays(d: Direction, c: Context, providers: Providers, a: Allocation, reply: Reply, b: Allocation)
    requires Sided(Opposite(d), providers, a) && !IsInternal(providers, a.key.provider)
    requires SettledTo(d, c, ProviderRow(providers, a.key.provider), a, reply, b)
    ensures !Sided(ToConfirm, providers, b) && !Sided(ToRelease, providers, b)
  {
  }

  /** A row that was being released, or never held anything, has no
      place in the lifecycle table once it has been confirmed. */
  lemma ConfirmedReleaseIsUntabled(s: Store, id: Uuid, replies: nat -> Reply)
    requires Live(s) && id in s.reservations && AllSided(ToRelease, s.providers, s.reservations[id].allocations)
    requires forall a | a in s.reservations[id].allocations :: !IsInternal(s.providers, a.key.provider)
    requires ConfirmAll(s.providers, s.offers, s.reservations[id], USER_CONTEXT, replies).Commit?
    ensures !Tabled(s.providers, ConfirmAll(s.providers, s.offers, s.reservations[id], USER_CONTEXT, replies).value.reservation)
  {
    hide SettleFrom, SettledTo, Sided, OffersOk, KeysUnique, OrdersOk, Conserved, AllTabled, AllocationOk, Serves;
    var r := s.reservations[id];
    var b := Books(s.offers, r.allocations);
    assert RowOk(s.providers, r);
    SettleFromPointwise(ToConfirm, USER_CONTEXT, s.providers, b, 0, replies);
    var t := SettleFrom(ToConfirm, USER_CONTEXT, s.providers, b, 0, replies).value;
    if r.allocations != [] {
      assert r.allocations[0] in r.allocations && t.allocations[0] in t.allocations;
      SettledBothWays(ToConfirm, USER_CONTEXT, s.providers, r.allocations[0], replies(0), t.allocations[0]);
    }
  }

  /** Confirm keeps the whole invariant exactly on reservations that have not been given up: pending, confirming
      and confirmed ones, and those whose confirmation a provider rejected. On every other one that it commits on,
      it breaks the ledger or leaves an order that the allocations do not back. */
  lemma ConfirmKeepsLiveIff(s: Store, id: Uuid, user: Uuid, replies: nat -> Reply)
    requires Live(s) && Owns(s, id, user) && Confirm(s, id, user, replies).Commit?
    ensures var r := s.reservations[id];
            Live(Confirm(s, id, user, replies).value)
            <==> r.status.Pending? || r.status.Confirming? || r.status.Confirmed? || WasRejected(s.providers, r)
  {
    var r := s.reservations[id];
    assert Tabled(s.providers, r);
    if Confirmable(s.providers, r) {
      ConfirmRowLive(s, id, USER_CONTEXT, replies);
    } else if !r.status.Confirmed? {
      ConfirmConservesIff(s, id, user, replies);
      var t := Confirm(s, id, user, replies).value;
      if a :| a in r.allocations && IsInternal(s.providers, a.key.provider) {
        assert Sided(ToRelease, s.providers, a);
      } else {
        ConfirmedReleaseIsUntabled(s, id, replies);
        assert id in t.reservations && !Tabled(s.providers, t.reservations[id]);
      }
    }
  }

  /** Neither has a row that was cancelled after a rejection. */
  lemma CancelledRejectionIsUntabled(s: Store, id: Uuid, replies: nat -> Reply)
    requires Live(s) && id in s.reservations && WasRejected(s.providers, s.reservations[id])
    requires forall a | a in s.reservations[id].allocations :: !IsInternal(s.providers, a.key.provider)
    requires ReleaseAll(s.providers, s.offers, s.reservations[id], ReservationStatus.Cancelled, USER_CONTEXT, replies).Commit?
    ensures !Tabled(s.providers, ReleaseAll(s.providers, s.offers, s.reservations[id], ReservationStatus.Cancelled, USER_CONTEXT, replies).value.reservation)
  {
    hide SettleFrom, SettledTo, Sided, Live;
    var r := s.reservations[id];
    var b := Books(s.offers, r.allocations);
    SettleFromPointwise(ToRelease, USER_CONTEXT, s.providers, b, 0, replies);
    var t := SettleFrom(ToRelease, USER_CONTEXT, s.providers, b, 0, replies).value;
    assert r.allocations[0] in r.allocations && t.allocations[0] in t.allocations;
    SettledBothWays(ToRelease, USER_CONTEXT, s.providers, r.allocations[0], replies(0), t.allocations[0]);
  }

  /** Cancel keeps the whole invariant exactly on reservations whose confirmation has not been rejected. */
  lemma CancelKeepsLiveIff(s: Store, id: Uuid, user: Uuid, replies: nat -> Reply)
    requires Live(s) && Owns(s, id, user) && Cancel(s, id, user, replies).Commit?
    ensures Live(Cancel(s, id, user, replies).value) <==> !WasRejected(s.providers, s.reservations[id])
  {
    var r := s.reservations[id];
    assert Tabled(s.providers, r);
    if !WasRejected(s.providers, r) {
      CancelLive(s, id, user, replies);
    } else {
      CancelConservesIff(s, id, user, replies);
      var t := Cancel(s, id, user, replies).value;
      if a :| a in r.allocations && IsInternal(s.providers, a.key.provider) {
        assert Sided(ToConfirm, s.providers, a);
      } else {
        CancelledRejectionIsUntabled(s, id, replies);
        assert id in t.reservations && !Tabled(s.providers, t.reservations[id]);
      }
    }
  }

  /** The lifecycle restriction is exact: a committed confirm or cancel keeps the invariant iff it respects it. */
  lemma RespectsIsExact(s: Store, step: Step)
    requires Live(s) && (step.ConfirmStep? || step.CancelStep?) && Attempt(s, step).Commit?
    ensures Live(Apply(s, step)) <==> Respects(s, step)
  {
    if Owns(s, step.id, step.user) {
      assert Tabled(s.providers, s.reservations[step.id]);
      if step.ConfirmStep? {
        ConfirmKeepsLiveIff(s, step.id, step.user, step.replies);
      } else {
        CancelKeepsLiveIff(s, step.id, step.user, step.replies);
      }
    }
  }

  /** A confirmed row is backed when every item has a confirmed allocation for its quantity. */
  predicate OrderBacked(r: Reservation) {
    && |r.allocations| == |r.items|
    && forall i | 0 <= i < |r.items| ::
         r.allocations[i].status.Confirmed? && r.allocations[i].key.product == r.items[i].product
         && r.allocations[i].quantity == r.items[i].quantity
  }

  /** When confirm reaches CONFIRMED, the new order is backed item by item exactly when the reservation had been
      allocated in full, so not after a create that failed half-way or at once. */
  lemma OrderIsBackedIff(s: Store, id: Uuid, user: Uuid, replies: nat -> Reply)
    requires Live(s) && Owns(s, id, user) && Confirm(s, id, user, replies).Commit?
    requires Confirm(s, id, user, replies).value.reservations[id].status.Confirmed?
    ensures OrderBacked(Confirm(s, id, user, replies).value.reservations[id])
            <==> |s.reservations[id].allocations| == |s.reservations[id].items|
  {
    ConfirmConsistent(s, id, user, replies);
    ConfirmKeepsCount(s, id, user, replies);
    var t := Confirm(s, id, user, replies).value;
    assert t.reservations[id].items == s.reservations[id].items && RowOk(t.providers, t.reservations[id]);
    hide Confirm, Live, Consistent;
    assert forall i | 0 <= i < |t.reservations[id].allocations| :: t.reservations[id].allocations[i] in t.reservations[id].allocations;
  }

  lemma ConfirmKeepsCount(s: Store, id: Uuid, user: Uuid, replies: nat -> Reply)
    requires Owns(s, id, user) && Confirm(s, id, user, replies).Commit?
    ensures var t := Confirm(s, id, user, replies).value;
            id in t.reservations && |t.reservations[id].allocations| == |s.reservations[id].allocations|
  {
    var r := s.reservations[id];
    if !r.status.Confirmed? && !r.status.Cancelled? {
      SettleFromPointwise(ToConfirm, USER_CONTEXT, s.providers, Books(s.offers, r.allocations), 0, replies);
    }
  }

  /** The guard of confirm lets a failed reservation without allocations through: it is confirmed and
      ordered although no unit of stock backs it. */
  lemma EmptyFailureCanBeConfirmed(s: Store, id: Uuid, user: Uuid, replies: nat -> Reply)
    requires Consistent(s) && Owns(s, id, user)
    requires s.reservations[id].status.Failed? && s.reservations[id].allocations == []
    ensures var x := Confirm(s, id, user, replies);
            && x.Commit? && x.value.offers == s.offers
            && x.value.reservations[id].status.Confirmed?
            && HasOrder(x.value.orders, id)
  {
    var r := s.reservations[id];
    assert SettleFrom(ToConfirm, USER_CONTEXT, s.providers, Books(s.offers, []), 0, replies) == Commit(Books(s.offers, []));
    var t := Confirm(s, id, user, replies).value;
    ConfirmRowConsistent(s, id, USER_CONTEXT, replies);
  }
}
