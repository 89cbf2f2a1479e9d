/** The reservation repository: loops over the rows of a session, writing them in place. A raised error leaves
    the session half written; the transaction around the call discards it (see ReservationService). */
module ReservationRepository {
  import opened Types
  import opened Database
  import opened Settlement
  import opened Transactions
  import Columns
  import InventoryRepository
  import Routing

  class Repository {
    const session: Session
    const inventory: InventoryRepository.Inventory

    constructor (session: Session)
      ensures this.session == session && inventory.session == session
    {
      this.session := session;
      inventory := new InventoryRepository.Inventory(session);
    }

    predicate Wired() { inventory.session == session }

    method SetAllocation(id: Uuid, i: nat, a: Allocation)
      requires id in session.reservations && i < |session.reservations[id].allocations|
      modifies session`reservations
      ensures session.reservations == old(session.reservations)[id := old(session.reservations[id]).(
                allocations := old(session.reservations[id]).allocations[i := a])]
    {
      var r := session.reservations[id];
      session.reservations := session.reservations[id := r.(allocations := r.allocations[i := a])];
    }

    /** Confirms or releases an external hold through its durable operation. */
    method SettleExternalHold(d: Direction, c: Context, p: Provider, id: Uuid, i: nat, reply: Reply) returns (error: Option<Error>)
      requires id in session.reservations && i < |session.reservations[id].allocations|
      modifies session`reservations
      ensures match SettleExternal(d, c, p, old(session.reservations[id]).allocations[i], reply)
              case Raise(e) => error == Some(e)
              case Commit(a) =>
                && error == None
                && session.reservations == old(session.reservations)[id := old(session.reservations[id]).(
                     allocations := old(session.reservations[id]).allocations[i := a])]
      ensures error == Some(InventoryConfirmationError(External))
              <==> d.ToConfirm? && (!p.confirm || !p.http || old(session.reservations[id]).allocations[i].reference.None?)
      ensures error == Some(InventoryReleaseError(External))
              <==> d.ToRelease? && (!p.release || !p.http || old(session.reservations[id]).allocations[i].reference.None?)
    {
      var a := session.reservations[id].allocations[i];
      if !Supports(d, p) || !p.http || a.reference.None? { return Some(Refusal(d, External)); }
      var op := OperationOf(d, a);
      var attempts := 1;
      if op.Some? {
        if op.value.status.Succeeded? {
          SetAllocation(id, i, a.(status := DoneStatus(d)));
          return None;
        }
        if op.value.status.Unknown? && (!c.retryUnknown || op.value.attempts >= c.maxAttempts) {
          SetAllocation(id, i, a.(status := AllocationStatus.Unknown));
          return None;
        }
        attempts := op.value.attempts + 1;
      }
      SetAllocation(id, i, WithOperation(d, a, Operation(OperationStatus.InProgress, attempts, None), a.status));
      label flushed:
      var settled: Operation;
      match reply {
        case Raised => return Some(ProviderRaised);
        case Done => settled := Operation(OperationStatus.Succeeded, attempts, None);
        case Unknown => settled := Operation(OperationStatus.Unknown, attempts, NextAttemptAt(c, attempts));
        case _ => settled := Operation(OperationStatus.Failed, attempts, None);
      }
      var b := session.reservations[id].allocations[i];
      SetAllocation(id, i, WithOperation(d, b, settled, ReplyStatus(d, reply)));
      assert old(session.reservations[id]).allocations[i := WithOperation(d, b, settled, ReplyStatus(d, reply))]
          == old@flushed(session.reservations[id]).allocations[i := WithOperation(d, b, settled, ReplyStatus(d, reply))];
      error := None;
    }

    /** Settles one allocation of a reservation. */
    method SettleAllocation(d: Direction, c: Context, id: Uuid, i: nat, reply: Reply) returns (error: Option<Error>)
      requires Wired()
      requires id in session.reservations && i < |session.reservations[id].allocations|
      modifies session`offers, session`reservations
      ensures var a := old(session.reservations[id]).allocations[i];
              match SettleOne(d, c, ProviderRow(session.providers, a.key.provider), old(session.offers), a, reply)
              case Raise(e) => error == Some(e)
              case Commit(s) =>
                && error == None && session.offers == s.offers
                && session.reservations == old(session.reservations)[id := old(session.reservations[id]).(
                     allocations := old(session.reservations[id]).allocations[i := s.allocation])]
    {
      var a := session.reservations[id].allocations[i];
      if a.status == DoneStatus(d) {
        SetAllocation(id, i, a);
        return None;
      }
      var p := ProviderRow(session.providers, a.key.provider);
      if p.kind.External? {
        error := SettleExternalHold(d, c, p, id, i, reply);
        return;
      }
      var level: Option<Offer>;
      if d.ToConfirm? {
        level := inventory.ConfirmHold(a.key, a.quantity);
      } else {
        level := inventory.ReleaseHold(a.key, a.quantity);
      }
      if level.None? { return Some(Refusal(d, Internal)); }
      SetAllocation(id, i, a.(status := DoneStatus(d)));
      return None;
    }

    /** Creates the order of a confirmed reservation unless it exists. */
    method EnsureOrder(r: Reservation)
      modifies session`orders
      ensures session.orders == Transactions.EnsureOrder(old(session.orders), r)
    {
      if exists o | o in session.orders :: o.reservation == r.id { return; }
      session.orders := session.orders + [Order(r.id, r.user, OrderLines(r.items))];
    }

    /** The confirmation loop with its two flags. */
    method ConfirmAllocations(id: Uuid, c: Context, replies: nat -> Reply) returns (error: Option<Error>, pending: bool, failed: bool)
      requires Wired() && id in session.reservations
      modifies session`offers, session`reservations
      ensures match SettleFrom(ToConfirm, c, session.providers, Books(old(session.offers), old(session.reservations[id]).allocations), 0, replies)
              case Raise(e) => error == Some(e)
              case Commit(b) =>
                && error == None && session.offers == b.offers
                && session.reservations == old(session.reservations)[id := old(session.reservations[id]).(allocations := b.allocations)]
                && failed == FailedBefore(b.allocations, |b.allocations|) && pending == PendingBefore(b.allocations, |b.allocations|)
    {
      pending, failed := false, false;
      var i := 0;
      ghost var b := Books(session.offers, session.reservations[id].allocations);
      while i < |session.reservations[id].allocations|
        invariant session.reservations == old(session.reservations)[id := old(session.reservations[id]).(allocations := b.allocations)]
        invariant session.offers == b.offers && i <= |b.allocations|
        invariant SettleFrom(ToConfirm, c, session.providers, Books(old(session.offers), old(session.reservations[id]).allocations), 0, replies)
               == SettleFrom(ToConfirm, c, session.providers, b, i, replies)
        invariant failed == FailedBefore(b.allocations, i) && pending == PendingBefore(b.allocations, i)
        decreases |b.allocations| - i
      {
        error := SettleAllocation(ToConfirm, c, id, i, replies(i));
        if error.Some? { return; }
        var a := session.reservations[id].allocations[i];
        FlagsAdvance(b.allocations, i, a);
        if a.status.Confirmed? {
        } else if a.status.Failed? {
          failed := true;
        } else {
          pending := true;
        }
        b := Books(session.offers, b.allocations[i := a]);
        i := i + 1;
      }
      error := None;
    }

    method ConfirmReservation(id: Uuid, c: Context, replies: nat -> Reply) returns (error: Option<Error>)
      requires Wired() && id in session.reservations
      modifies session`offers, session`reservations, session`orders
      ensures match ConfirmRow(old(session.Snapshot()), id, c, replies)
              case Raise(e) => error == Some(e)
              case Commit(t) => error == None && session.Snapshot() == t
    {
      hide SettleFrom, AllReleased, UnreleasedBefore;
      var pending, failed;
      error, pending, failed := ConfirmAllocations(id, c, replies);
      if error.Some? { return; }
      FlagsDecide(session.reservations[id].allocations);
      var status := if failed then ReservationStatus.Failed
                    else if pending then ReservationStatus.Confirming else ReservationStatus.Confirmed;
      session.reservations := session.reservations[id := session.reservations[id].(status := status)];
      if status.Confirmed? { EnsureOrder(session.reservations[id]); }
    }

    /** The release loop with its flag. */
    method ReleaseAllocations(id: Uuid, c: Context, replies: nat -> Reply) returns (error: Option<Error>, pending: bool)
      requires Wired() && id in session.reservations
      modifies session`offers, session`reservations
      ensures match SettleFrom(ToRelease, c, session.providers, Books(old(session.offers), old(session.reservations[id]).allocations), 0, replies)
              case Raise(e) => error == Some(e)
              case Commit(b) =>
                && error == None && session.offers == b.offers
                && session.reservations == old(session.reservations)[id := old(session.reservations[id]).(allocations := b.allocations)]
                && pending == UnreleasedBefore(b.allocations, |b.allocations|)
    {
      pending := false;
      var i := 0;
      ghost var b := Books(session.offers, session.reservations[id].allocations);
      while i < |session.reservations[id].allocations|
        invariant session.reservations == old(session.reservations)[id := old(session.reservations[id]).(allocations := b.allocations)]
        invariant session.offers == b.offers && i <= |b.allocations|
        invariant SettleFrom(ToRelease, c, session.providers, Books(old(session.offers), old(session.reservations[id]).allocations), 0, replies)
               == SettleFrom(ToRelease, c, session.providers, b, i, replies)
        invariant pending == UnreleasedBefore(b.allocations, i)
        decreases |b.allocations| - i
      {
        error := SettleAllocation(ToRelease, c, id, i, replies(i));
        if error.Some? { return; }
        var a := session.reservations[id].allocations[i];
        FlagsAdvance(b.allocations, i, a);
        if !a.status.Released? { pending := true; }
        b := Books(session.offers, b.allocations[i := a]);
        i := i + 1;
      }
      error := None;
    }

    /** The target is recorded before the first release, and cleared with the last one. */
    method ReleaseReservation(id: Uuid, terminal: ReservationStatus, c: Context, replies: nat -> Reply) returns (error: Option<Error>)
      requires Wired() && id in session.reservations
      modifies session`offers, session`reservations
      ensures match ReleaseRow(old(session.Snapshot()), id, terminal, c, replies)
              case Raise(e) => error == Some(e)
              case Commit(t) => error == None && session.Snapshot() == t
    {
      hide SettleFrom, ConfirmedStatus, FailedBefore, PendingBefore;
      session.reservations := session.reservations[id := session.reservations[id].(target := Some(terminal))];
      var pending;
      error, pending := ReleaseAllocations(id, c, replies);
      if error.Some? { return; }
      FlagsDecide(session.reservations[id].allocations);
      var r := session.reservations[id];
      session.reservations := session.reservations[id :=
        if pending then r.(status := ReservationStatus.Releasing) else r.(status := terminal, target := None)];
    }

    /** Holds item after item and records the allocations; `held` tells whether it got through all of them. */
    method HoldEachItem(id: Uuid, items: seq<Item>, holds: nat -> Uuid -> Routing.CandidateReply) returns (error: Option<Error>, held: bool)
      requires Wired() && id in session.reservations && session.reservations[id].allocations == []
      modifies session`offers, session`reservations
      ensures match HoldItems(session.providers, old(session.offers), items, 0, [], holds)
              case Raise(e) => error == Some(e)
              case Commit(h) =>
                && error == None && session.offers == h.offers && held == h.complete
                && session.reservations == old(session.reservations)[id := old(session.reservations[id]).(allocations := h.allocations)]
    {
      held := false;
      var i := 0;
      ghost var allocations := [];
      while i < |items|
        invariant i <= |items| && !held
        invariant session.reservations == old(session.reservations)[id := old(session.reservations[id]).(allocations := allocations)]
        invariant HoldItems(session.providers, old(session.offers), items, 0, [], holds)
               == HoldItems(session.providers, session.offers, items, i, allocations, holds)
      {
        ghost var before := session.offers;
        var end, calls := inventory.TryHoldSelected(items[i], holds(i));
        HoldItemsTurn(session.providers, before, items, i, allocations, holds, Routing.Routing(session.offers, calls, end));
        match end {
          case UnknownAt(_) => return Some(UnknownProviderOutcomeError), false;
          case RaisedAt(_) => return Some(ProviderRaised), false;
          case Exhausted => return None, false;
          case RoutedTo(hold) =>
            var r := session.reservations[id];
            session.reservations := session.reservations[id := r.(allocations := r.allocations + [HeldAllocation(items[i], hold)])];
            allocations := allocations + [HeldAllocation(items[i], hold)];
        }
        i := i + 1;
      }
      return None, true;
    }

    /** Inserts the reservation and holds its items. */
    method InsertAndHold(q: Reservation, holds: nat -> Uuid -> Routing.CandidateReply) returns (error: Option<Error>, held: bool)
      requires Wired() && IsDraft(q) && InsertError(session.Snapshot(), q).None?
      modifies session`offers, session`reservations
      ensures match HoldItems(session.providers, old(session.offers), q.items, 0, [], holds)
              case Raise(e) => error == Some(e)
              case Commit(h) => error == None && held == h.complete && session.Snapshot() == Holdings(old(session.Snapshot()), q, h)
    {
      session.reservations := session.reservations[q.id := q];
      error, held := HoldEachItem(q.id, q.items, holds);
    }

    /** Compensates at the first shortage. */
    method AddWithHold(q: Reservation, holds: nat -> Uuid -> Routing.CandidateReply, releases: nat -> Reply)
      returns (error: Option<Error>, held: bool)
      requires Wired() && IsDraft(q)
      modifies session`offers, session`reservations
      ensures match Transactions.AddWithHold(old(session.Snapshot()), q, holds, releases)
              case Raise(e) => error == Some(e)
              case Commit(added) => error == None && session.Snapshot() == added.store && held == added.held
    {
      ghost var s := session.Snapshot();
      held := false;
      error := InsertError(session.Snapshot(), q);
      if error.Some? { return; }
      ghost var holding := HoldItems(session.providers, session.offers, q.items, 0, [], holds);
      error, held := InsertAndHold(q, holds);
      if error.Some? {
        AddWithHoldRaises(s, q, holds, releases, error.value);
        return;
      }
      AddWithHoldCompensates(s, q, holds, releases, holding.value);
      if !held { error := ReleaseReservation(q.id, ReservationStatus.Failed, USER_CONTEXT, releases); }
    }

    method Confirm(id: Uuid, user: Uuid, replies: nat -> Reply) returns (error: Option<Error>, row: Option<Reservation>)
      requires Wired()
      modifies session`offers, session`reservations, session`orders
      ensures match Transactions.Confirm(old(session.Snapshot()), id, user, replies)
              case Raise(e) => error == Some(e)
              case Commit(t) => error == None && session.Snapshot() == t && row == Lookup(t, id, user)
      ensures id !in old(session.reservations) || old(session.reservations)[id].user != user ==>
                error == None && row == None && session.Snapshot() == old(session.Snapshot())
      ensures error == None && id in old(session.reservations) && old(session.reservations)[id].user == user ==>
                id in session.reservations && row == Some(session.reservations[id])
    {
      if id !in session.reservations || session.reservations[id].user != user { return None, None; }
      var r := session.reservations[id];
      if r.status.Confirmed? {
        EnsureOrder(r);
        return None, Some(r);
      }
      if r.status.Cancelled? { return Some(ReservationNotConfirmableError), None; }
      error := ConfirmReservation(id, USER_CONTEXT, replies);
      row := if error.None? then Some(session.reservations[id]) else None;
    }

    method Cancel(id: Uuid, user: Uuid, replies: nat -> Reply) returns (error: Option<Error>, row: Option<Reservation>)
      requires Wired()
      modifies session`offers, session`reservations
      ensures match Transactions.Cancel(old(session.Snapshot()), id, user, replies)
              case Raise(e) => error == Some(e)
              case Commit(t) => error == None && session.Snapshot() == t && row == Lookup(t, id, user)
      ensures id !in old(session.reservations) || old(session.reservations)[id].user != user ==>
                error == None && row == None && session.Snapshot() == old(session.Snapshot())
      ensures error == None && id in old(session.reservations) && old(session.reservations)[id].user == user ==>
                id in session.reservations && row == Some(session.reservations[id])
    {
      if id !in session.reservations || session.reservations[id].user != user { return None, None; }
      var r := session.reservations[id];
      if r.status.Cancelled? { return None, Some(r); }
      if r.status.Confirmed? { return Some(ReservationNotCancellableError), None; }
      if r.status.Confirming? { return Some(ReservationReconciliationRequiredError), None; }
      error := ReleaseReservation(id, ReservationStatus.Cancelled, USER_CONTEXT, replies);
      row := if error.None? then Some(session.reservations[id]) else None;
    }

    method ReleaseEach(rows: seq<Uuid>, terminal: ReservationStatus, replies: Uuid -> nat -> Reply) returns (error: Option<Error>)
      requires Wired() && forall id | id in rows :: id in session.reservations
      modifies session`offers, session`reservations
      ensures match ReleaseRows(old(session.Snapshot()), rows, terminal, replies)
              case Raise(e) => error == Some(e)
              case Commit(t) => error == None && session.Snapshot() == t
    {
      var i := 0;
      while i < |rows|
        invariant i <= |rows|
        invariant forall id | id in rows :: id in session.reservations
        invariant ReleaseRows(old(session.Snapshot()), rows, terminal, replies) == ReleaseRows(session.Snapshot(), rows[i..], terminal, replies)
      {
        assert rows[i] in rows && rows[i..][0] == rows[i] && rows[i..][1..] == rows[i + 1..];
        error := ReleaseReservation(rows[i], terminal, USER_CONTEXT, replies(rows[i]));
        if error.Some? { return; }
        i := i + 1;
      }
      error := None;
    }

    method ExpireBatch(now: int, limit: nat, locked: set<Uuid>, replies: Uuid -> nat -> Reply) returns (error: Option<Error>, rows: seq<Uuid>)
      requires Wired()
      modifies session`offers, session`reservations
      ensures rows == DueRows(old(session.Snapshot()), now, limit, locked)
      ensures match Transactions.ExpireBatch(old(session.Snapshot()), now, limit, locked, replies)
              case Raise(e) => error == Some(e)
              case Commit(t) => error == None && session.Snapshot() == t
      ensures forall id | id in rows ::
                && id in old(session.reservations) && id !in locked
                && old(session.reservations)[id].status.Pending? && old(session.reservations)[id].expiresAt <= now
      ensures |rows| < limit ==>
                forall id | id in old(session.reservations) && old(session.reservations)[id].status.Pending?
                            && old(session.reservations)[id].expiresAt <= now && id !in locked :: id in rows
    {
      Columns.DueRowsColumns(session.Snapshot(), now, limit, locked);
      rows := DueRows(session.Snapshot(), now, limit, locked);
      DueRowsAreDue(session.Snapshot(), now, limit, locked);
      error := ReleaseEach(rows, ReservationStatus.Expired, replies);
    }

    /** The worker's query: up to `limit` selectable reservations, in some order. */
    method SelectRetryable(now: int, limit: nat, maxAttempts: nat, locked: set<Uuid>) returns (rows: seq<Uuid>)
      ensures SelectedRows(session.Snapshot(), now, limit, maxAttempts, locked, rows)
    {
      var queue := set id | id in session.reservations && id !in locked && Selectable(session.reservations[id], now, maxAttempts);
      var rest := queue;
      rows := [];
      while |rows| < limit && rest != {}
        invariant rest <= queue && |rows| <= limit
        invariant Routing.Distinct(rows)
        invariant forall id :: id in rows <==> id in queue && id !in rest
        decreases rest
      {
        var id :| id in rest;
        rows := rows + [id];
        rest := rest - {id};
      }
    }

    method ReconcileBatch(now: int, limit: nat, maxAttempts: nat, baseDelay: nat, locked: set<Uuid>, replies: Uuid -> nat -> Reply)
      returns (error: Option<Error>, rows: seq<Uuid>)
      requires Wired()
      modifies session`offers, session`reservations, session`orders
      ensures SelectedRows(old(session.Snapshot()), now, limit, maxAttempts, locked, rows)
      ensures match ReconcileRows(old(session.Snapshot()), rows, WorkerContext(now, maxAttempts, baseDelay), replies)
              case Raise(e) => error == Some(e)
              case Commit(t) => error == None && session.Snapshot() == t
    {
      rows := SelectRetryable(now, limit, maxAttempts, locked);
      var c := WorkerContext(now, maxAttempts, baseDelay);
      var i := 0;
      while i < |rows|
        invariant i <= |rows|
        invariant forall id | id in rows :: id in session.reservations
        invariant ReconcileRows(old(session.Snapshot()), rows, c, replies) == ReconcileRows(session.Snapshot(), rows[i..], c, replies)
      {
        assert rows[i] in rows && rows[i..][0] == rows[i] && rows[i..][1..] == rows[i + 1..];
        var r := session.reservations[rows[i]];
        error := None;
        if r.status.Releasing? {
          if r.target.Some? { error := ReleaseReservation(rows[i], r.target.value, c, replies(rows[i])); }
        } else if r.status.Confirming? {
          error := ConfirmReservation(rows[i], c, replies(rows[i]));
        }
        if error.Some? { return; }
        i := i + 1;
      }
      error := None;
    }

    method GetByKey(user: Uuid, key: string) returns (row: Option<Reservation>)
      ensures row.None? <==> !KeyTaken(session.reservations, user, key)
      ensures row.Some? ==> exists id | id in session.reservations :: OwnsKey(session.reservations[id], user, key) && row.value == session.reservations[id]
    {
      var matching := set id | id in session.reservations && OwnsKey(session.reservations[id], user, key);
      if matching == {} {
        assert forall id | id in session.reservations :: id !in matching;
        return None;
      }
      var id :| id in matching;
      return Some(session.reservations[id]);
    }
  }
}
