/** The pure reservation aggregate, and the repository's transactions as its refinement. */
module Domain {
  import opened Types
  import opened Settlement
  import opened Transactions
  import opened Consistency
  import opened Lifecycle

  function ConfirmReservation(r: Reservation): Tx<Reservation> {
    match r.status
    case Confirmed => Commit(r)
    case Cancelled => Raise(ReservationNotConfirmableError)
    case _ => Commit(r.(status := ReservationStatus.Confirmed, target := None))
  }

  function CancelReservation(r: Reservation): Tx<Reservation> {
    match r.status
    case Cancelled => Commit(r)
    case Confirmed => Raise(ReservationNotCancellableError)
    case Confirming => Raise(ReservationReconciliationRequiredError)
    case _ => Commit(r.(status := ReservationStatus.Cancelled, target := None))
  }

  predicate InternalOnly(providers: Providers, r: Reservation) {
    forall a | a in r.allocations :: IsInternal(providers, a.key.provider)
  }

  predicate Settled(r: Reservation) {
    r.status.Pending? || r.status.Confirmed? || r.status.Cancelled?
  }

  /** The stored row shows what the aggregate shows: same request, same status, same release target. */
  predicate ShowsSame(row: Reservation, r: Reservation) {
    SameRequest(row, r) && row.status == r.status && row.target == r.target
  }

  /** Without external allocations a settlement in a live store always commits, and finishes every allocation. */
  lemma {:induction false} InternalSettlementCommits(d: Direction, c: Context, providers: Providers, b: Books, i: nat, replies: nat -> Reply)
    requires i <= |b.allocations|
    requires forall a | a in b.allocations :: IsInternal(providers, a.key.provider)
    requires forall j | 0 <= j < i :: b.allocations[j].status == DoneStatus(d)
    ensures match SettleFrom(d, c, providers, b, i, replies)
            case Raise(e) => e == Refusal(d, Internal)
            case Commit(t) => forall a | a in t.allocations :: a.status == DoneStatus(d)
    decreases |b.allocations| - i
  {
    if i < |b.allocations| {
      var a := b.allocations[i];
      assert a in b.allocations;
      match SettleOne(d, c, ProviderRow(providers, a.key.provider), b.offers, a, replies(i)) {
        case Raise(_) =>
        case Commit(s) =>
          InternalSettlementCommits(d, c, providers, Books(s.offers, b.allocations[i := s.allocation]), i + 1, replies);
      }
    }
  }

  lemma InternalRowSettles(d: Direction, c: Context, s: Store, id: Uuid, replies: nat -> Reply)
    requires Live(s) && id in s.reservations && InternalOnly(s.providers, s.reservations[id])
    requires s.reservations[id].status.Pending?
    ensures var x := SettleFrom(d, c, s.providers, Books(s.offers, s.reservations[id].allocations), 0, replies);
            x.Commit? && forall a | a in x.value.allocations :: a.status == DoneStatus(d)
  {
    assert Tabled(s.providers, s.reservations[id]);
    SettleRowBalanced(d, c, s, id, replies);
    InternalSettlementCommits(d, c, s.providers, Books(s.offers, s.reservations[id].allocations), 0, replies);
  }

  /** On a settled internal-only reservation of a live store, the confirm transaction commits exactly when the
      aggregate confirms, then shows the same reservation, and otherwise raises the same error. */
  lemma ConfirmRefinesDomain(s: Store, id: Uuid, user: Uuid, replies: nat -> Reply)
    requires Live(s) && Owns(s, id, user)
    requires InternalOnly(s.providers, s.reservations[id]) && Settled(s.reservations[id])
    ensures match (Confirm(s, id, user, replies), ConfirmReservation(s.reservations[id]))
            case (Commit(t), Commit(r)) => Owns(t, id, user) && ShowsSame(t.reservations[id], r)
            case (Raise(e), Raise(f)) => e == f
            case _ => false
  {
    assert Tabled(s.providers, s.reservations[id]);
    if s.reservations[id].status.Pending? { InternalRowSettles(ToConfirm, USER_CONTEXT, s, id, replies); }
  }

  lemma CancelRefinesDomain(s: Store, id: Uuid, user: Uuid, replies: nat -> Reply)
    requires Live(s) && Owns(s, id, user)
    requires InternalOnly(s.providers, s.reservations[id]) && Settled(s.reservations[id])
    ensures match (Cancel(s, id, user, replies), CancelReservation(s.reservations[id]))
            case (Commit(t), Commit(r)) => Owns(t, id, user) && ShowsSame(t.reservations[id], r)
            case (Raise(e), Raise(f)) => e == f
            case _ => false
  {
    assert Tabled(s.providers, s.reservations[id]);
    if s.reservations[id].status.Pending? { InternalRowSettles(ToRelease, USER_CONTEXT, s, id, replies); }
  }
}
