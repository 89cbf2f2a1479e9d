/** Reservations that wait for a provider: which of them a worker selects, which it can finish, and which nobody can. */
module Stalled {
  import opened Types
  import opened Settlement
  import opened Transactions
  import opened Consistency
  import opened Lifecycle
  import opened Retry
  import Backoff

  /** On its way in direction `d`. */
  predicate Underway(r: Reservation, d: Direction) {
    if d.ToConfirm? then r.status.Confirming? else r.status.Releasing? && IsReleaseTarget(r.target)
  }

  /** Every operation of unknown outcome in direction `d` has used up its attempts. */
  predicate Stuck(r: Reservation, d: Direction, max: nat) {
    forall a | a in r.allocations ::
      OperationOf(d, a).Some? && OperationOf(d, a).value.status.Unknown? ==> OperationOf(d, a).value.attempts >= max
  }

  lemma StuckIsNotSelectable(r: Reservation, d: Direction, max: nat, now: int)
    requires Underway(r, d) && Stuck(r, d, max)
    ensures !Selectable(r, now, max)
  {
    forall a | a in r.allocations ensures !RetryDue(OperationOf(d, a), now, max) { }
  }

  /** A reservation that is underway is never selected, at whatever time, exactly when it is stuck. */
  lemma NeverSelectableIff(r: Reservation, d: Direction, max: nat)
    requires Underway(r, d)
    ensures (forall now :: !Selectable(r, now, max)) <==> Stuck(r, d, max)
  {
    if Stuck(r, d, max) {
      forall now ensures !Selectable(r, now, max) { StuckIsNotSelectable(r, d, max, now); }
    } else {
      var a :| a in r.allocations && OperationOf(d, a).Some? && OperationOf(d, a).value.status.Unknown?
               && OperationOf(d, a).value.attempts < max;
      var next := OperationOf(d, a).value.nextAttemptAt;
      var now := if next.Some? then next.value else 0;
      assert RetryDue(OperationOf(d, a), now, max);
      assert Selectable(r, now, max);
    }
  }

  /** Without the customer a stuck reservation does not move at all: no worker with that cap, no operator and no other
      customer changes it. Whether the customer can finish it is said by `FinishableIff`. */
  lemma {:induction false} NobodyFinishesStuck(s: Store, steps: seq<Step>, id: Uuid, d: Direction, max: nat)
    requires ValidRun(s, steps)
    requires forall step | step in steps :: !TouchesByUser(step, id) && (step.ReconcileStep? ==> step.maxAttempts <= max)
    requires id in s.reservations && Underway(s.reservations[id], d) && Stuck(s.reservations[id], d, max)
    ensures id in Run(s, steps).reservations && Run(s, steps).reservations[id] == s.reservations[id]
    decreases |steps|
  {
    if steps != [] {
      var step := steps[0];
      assert step in steps;
      assert forall x | x in steps[1..] :: x in steps;
      if step.ReconcileStep? {
        assert Stuck(s.reservations[id], d, step.maxAttempts);
        StuckIsNotSelectable(s.reservations[id], d, step.maxAttempts, step.now);
      }
      Backoff.OtherStepsKeepRow(s, step, id);
      NobodyFinishesStuck(Apply(s, step), steps[1..], id, d, max);
    }
  }

  // ----- What a first settlement leaves behind -----

  /** An allocation after the first settlement of a pending reservation. */
  predicate FirstOutcome(d: Direction, external: bool, reply: Reply, b: Allocation) {
    if !external then b.status == DoneStatus(d) && OperationOf(d, b).None?
    else
      && OperationOf(d, b) == Some(ReplyOperation(USER_CONTEXT, 1, reply))
      && b.status == ReplyStatus(d, reply)
  }

  lemma FirstSettlement(d: Direction, p: Provider, a: Allocation, reply: Reply, b: Allocation)
    requires FreshlyHeld(a) && SettledTo(d, USER_CONTEXT, p, a, reply, b)
    ensures FirstOutcome(d, p.kind.External?, reply, b)
  {
  }

  lemma FirstOutcomeRetry(d: Direction, external: bool, reply: Reply, b: Allocation, now: int, max: nat)
    requires FirstOutcome(d, external, reply, b)
    ensures RetryDue(OperationOf(d, b), now, max) <==> max > 1 && external && reply.Unknown?
  {
  }

  predicate FirstOutcomes(d: Direction, providers: Providers, r: Reservation, replies: nat -> Reply, t: seq<Allocation>) {
    && |t| == |r.allocations|
    && forall j | 0 <= j < |t| :: FirstOutcome(d, !IsInternal(providers, r.allocations[j].key.provider), replies(j), t[j])
  }

  lemma PendingSettles(d: Direction, s: Store, id: Uuid, replies: nat -> Reply)
    requires Live(s) && id in s.reservations && s.reservations[id].status.Pending?
    requires SettleFrom(d, USER_CONTEXT, s.providers, Books(s.offers, s.reservations[id].allocations), 0, replies).Commit?
    ensures var r := s.reservations[id];
            FirstOutcomes(d, s.providers, r, replies,
                          SettleFrom(d, USER_CONTEXT, s.providers, Books(s.offers, r.allocations), 0, replies).value.allocations)
  {
    var r := s.reservations[id];
    assert Tabled(s.providers, r);
    SettleFromPointwise(d, USER_CONTEXT, s.providers, Books(s.offers, r.allocations), 0, replies);
    hide SettleFrom, SettledTo, FirstOutcome, FreshlyHeld;
    var t := SettleFrom(d, USER_CONTEXT, s.providers, Books(s.offers, r.allocations), 0, replies).value.allocations;
    forall j | 0 <= j < |t| ensures FirstOutcome(d, !IsInternal(s.providers, r.allocations[j].key.provider), replies(j), t[j]) {
      assert r.allocations[j] in r.allocations;
      FirstSettlement(d, ProviderRow(s.providers, r.allocations[j].key.provider), r.allocations[j], replies(j), t[j]);
    }
  }

  /** Some external provider of the reservation gave this kind of answer. */
  predicate SomeExternal(providers: Providers, r: Reservation, replies: nat -> Reply, wanted: Reply -> bool) {
    exists j | 0 <= j < |r.allocations| :: !IsInternal(providers, r.allocations[j].key.provider) && wanted(replies(j))
  }

  /** By position or by allocation: some operation can be retried iff some external answer was unknown. */
  lemma SomeRetry(d: Direction, providers: Providers, r: Reservation, replies: nat -> Reply, t: seq<Allocation>, now: int, max: nat)
    requires FirstOutcomes(d, providers, r, replies, t)
    ensures (exists b | b in t :: RetryDue(OperationOf(d, b), now, max))
            <==> max > 1 && SomeExternal(providers, r, replies, (x: Reply) => x.Unknown?)
  {
    hide FirstOutcome, RetryDue;
    forall j | 0 <= j < |t|
      ensures RetryDue(OperationOf(d, t[j]), now, max)
              <==> max > 1 && !IsInternal(providers, r.allocations[j].key.provider) && replies(j).Unknown?
    {
      FirstOutcomeRetry(d, !IsInternal(providers, r.allocations[j].key.provider), replies(j), t[j], now, max);
    }
    if max > 1 && SomeExternal(providers, r, replies, (x: Reply) => x.Unknown?) {
      var j :| 0 <= j < |t| && !IsInternal(providers, r.allocations[j].key.provider) && replies(j).Unknown?;
      assert t[j] in t;
    }
  }

  lemma SomeNotDone(d: Direction, providers: Providers, r: Reservation, replies: nat -> Reply, t: seq<Allocation>)
    requires FirstOutcomes(d, providers, r, replies, t)
    ensures (exists b | b in t :: b.status != DoneStatus(d)) <==> SomeExternal(providers, r, replies, (x: Reply) => !x.Done?)
  {
    if SomeExternal(providers, r, replies, (x: Reply) => !x.Done?) {
      var j :| 0 <= j < |t| && !IsInternal(providers, r.allocations[j].key.provider) && !replies(j).Done?;
      assert t[j] in t;
    }
    if b :| b in t && b.status != DoneStatus(d) {
      var j :| 0 <= j < |t| && t[j] == b;
      assert FirstOutcome(d, !IsInternal(providers, r.allocations[j].key.provider), replies(j), t[j]);
    }
  }

  lemma SomeRejected(providers: Providers, r: Reservation, replies: nat -> Reply, t: seq<Allocation>)
    requires FirstOutcomes(ToConfirm, providers, r, replies, t)
    ensures (exists b | b in t :: b.status.Failed?) <==> SomeExternal(providers, r, replies, (x: Reply) => x.Rejected?)
  {
    if SomeExternal(providers, r, replies, (x: Reply) => x.Rejected?) {
      var j :| 0 <= j < |t| && !IsInternal(providers, r.allocations[j].key.provider) && replies(j).Rejected?;
      assert t[j] in t;
    }
    if b :| b in t && b.status.Failed? {
      var j :| 0 <= j < |t| && t[j] == b;
      assert FirstOutcome(ToConfirm, !IsInternal(providers, r.allocations[j].key.provider), replies(j), t[j]);
    }
  }

  lemma FirstRelease(s: Store, id: Uuid, terminal: ReservationStatus, replies: nat -> Reply)
    requires Live(s) && id in s.reservations && s.reservations[id].status.Pending? && IsReleaseTarget(Some(terminal))
    requires ReleaseRow(s, id, terminal, USER_CONTEXT, replies).Commit?
    ensures var r, t := s.reservations[id], ReleaseRow(s, id, terminal, USER_CONTEXT, replies).value.reservations[id];
            && FirstOutcomes(ToRelease, s.providers, r, replies, t.allocations)
            && !t.status.Confirming? && (t.status.Releasing? <==> !AllReleased(t.allocations))
            && (t.status.Releasing? ==> t.target == Some(terminal))
  {
    PendingSettles(ToRelease, s, id, replies);
    hide SettleFrom, FirstOutcomes, Live;
  }

  lemma FirstConfirm(s: Store, id: Uuid, replies: nat -> Reply)
    requires Live(s) && id in s.reservations && s.reservations[id].status.Pending?
    requires ConfirmRow(s, id, USER_CONTEXT, replies).Commit?
    ensures var r, t := s.reservations[id], ConfirmRow(s, id, USER_CONTEXT, replies).value.reservations[id];
            FirstOutcomes(ToConfirm, s.providers, r, replies, t.allocations) && t.status == ConfirmedStatus(t.allocations)
  {
    PendingSettles(ToConfirm, s, id, replies);
    hide SettleFrom, FirstOutcomes, Live;
  }

  /** A cancelled or expired reservation stays RELEASING exactly when some provider did not release at once, and
      the reconciliation worker will pick it up exactly when some provider's answer was unknown and more than one
      attempt is allowed, whatever the clock says. */
  lemma ReleasePickedUpIff(s: Store, id: Uuid, terminal: ReservationStatus, replies: nat -> Reply, now: int, max: nat)
    requires Live(s) && id in s.reservations && s.reservations[id].status.Pending? && IsReleaseTarget(Some(terminal))
    requires ReleaseRow(s, id, terminal, USER_CONTEXT, replies).Commit?
    ensures var r, t := s.reservations[id], ReleaseRow(s, id, terminal, USER_CONTEXT, replies).value.reservations[id];
            && (t.status.Releasing? <==> SomeExternal(s.providers, r, replies, (x: Reply) => !x.Done?))
            && (Selectable(t, now, max) <==> max > 1 && SomeExternal(s.providers, r, replies, (x: Reply) => x.Unknown?))
  {
    var r, t := s.reservations[id], ReleaseRow(s, id, terminal, USER_CONTEXT, replies).value.reservations[id];
    FirstRelease(s, id, terminal, replies);
    hide ReleaseRow, FirstOutcomes, SomeExternal, Live, RetryDue;
    SomeNotDone(ToRelease, s.providers, r, replies, t.allocations);
    SomeRetry(ToRelease, s.providers, r, replies, t.allocations, now, max);
    assert forall b :: OperationOf(ToRelease, b) == b.releaseOp;
  }

  /** The twin for confirmation: FAILED exactly when some provider rejected, CONFIRMING exactly when none did but
      some did not confirm at once, and picked up exactly when besides some answer was unknown. */
  lemma ConfirmPickedUpIff(s: Store, id: Uuid, replies: nat -> Reply, now: int, max: nat)
    requires Live(s) && id in s.reservations && s.reservations[id].status.Pending?
    requires ConfirmRow(s, id, USER_CONTEXT, replies).Commit?
    ensures var r, t := s.reservations[id], ConfirmRow(s, id, USER_CONTEXT, replies).value.reservations[id];
            && (t.status.Failed? <==> SomeExternal(s.providers, r, replies, (x: Reply) => x.Rejected?))
            && (t.status.Confirming? <==> !SomeExternal(s.providers, r, replies, (x: Reply) => x.Rejected?)
                                          && SomeExternal(s.providers, r, replies, (x: Reply) => !x.Done?))
            && (Selectable(t, now, max) <==> t.status.Confirming? && max > 1
                                             && SomeExternal(s.providers, r, replies, (x: Reply) => x.Unknown?))
  {
    var r, t := s.reservations[id], ConfirmRow(s, id, USER_CONTEXT, replies).value.reservations[id];
    FirstConfirm(s, id, replies);
    hide ConfirmRow, FirstOutcomes, SomeExternal, Live, RetryDue;
    SomeRejected(s.providers, r, replies, t.allocations);
    SomeNotDone(ToConfirm, s.providers, r, replies, t.allocations);
    SomeRetry(ToConfirm, s.providers, r, replies, t.allocations, now, max);
    assert forall b :: OperationOf(ToConfirm, b) == b.confirmOp;
  }

  /** A first release or confirmation that does not finish is stuck at once exactly when no answer was unknown or
      the worker is allowed one attempt only. */
  lemma StuckAtOnceIff(s: Store, id: Uuid, d: Direction, terminal: ReservationStatus, replies: nat -> Reply, max: nat)
    requires Live(s) && id in s.reservations && s.reservations[id].status.Pending? && IsReleaseTarget(Some(terminal))
    requires var x := if d.ToConfirm? then ConfirmRow(s, id, USER_CONTEXT, replies) else ReleaseRow(s, id, terminal, USER_CONTEXT, replies);
             x.Commit? && Underway(x.value.reservations[id], d)
    ensures var x := if d.ToConfirm? then ConfirmRow(s, id, USER_CONTEXT, replies) else ReleaseRow(s, id, terminal, USER_CONTEXT, replies);
            Stuck(x.value.reservations[id], d, max)
            <==> max <= 1 || !SomeExternal(s.providers, s.reservations[id], replies, (x: Reply) => x.Unknown?)
  {
    var x := if d.ToConfirm? then ConfirmRow(s, id, USER_CONTEXT, replies) else ReleaseRow(s, id, terminal, USER_CONTEXT, replies);
    NeverSelectableIff(x.value.reservations[id], d, max);
    hide ConfirmRow, ReleaseRow, Stuck, Selectable, Live, SomeExternal;
    forall now
      ensures Selectable(x.value.reservations[id], now, max)
              <==> max > 1 && SomeExternal(s.providers, s.reservations[id], replies, (x: Reply) => x.Unknown?)
    {
      if d.ToConfirm? {
        ConfirmPickedUpIff(s, id, replies, now, max);
      } else {
        ReleasePickedUpIff(s, id, terminal, replies, now, max);
      }
    }
    assert Selectable(x.value.reservations[id], 0, max) <==> max > 1 && SomeExternal(s.providers, s.reservations[id], replies, (x: Reply) => x.Unknown?);
  }
}
