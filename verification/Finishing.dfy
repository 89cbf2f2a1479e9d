/** Which reservations that wait for a provider can still be finished, by anybody, in any run. */
module Finishing {
  import opened Types
  import opened Settlement
  import opened Transactions
  import opened Consistency
  import opened Lifecycle
  import opened Retry
  import opened Stalled
  import Backoff
  import Batches

  // ----- Which cannot -----

  /** The provider operation is unknown and has used up its attempts. */
  predicate Capped(d: Direction, a: Allocation, max: nat) {
    OperationOf(d, a).Some? && OperationOf(d, a).value.status.Unknown? && OperationOf(d, a).value.attempts >= max
  }

  /** No call for this allocation will ever be made again: its operation is capped, or it has no reference to call with. */
  predicate Doomed(d: Direction, providers: Providers, a: Allocation, max: nat) {
    && a.status != DoneStatus(d) && a.key.provider in providers && !IsInternal(providers, a.key.provider)
    && (a.reference.None? || Capped(d, a, max))
  }

  /** On its way in direction `d`, or rejected there and open to another confirmation. */
  predicate Unfinished(r: Reservation, d: Direction) {
    Underway(r, d) || (d.ToConfirm? && r.status.Failed? && AnyFailed(r.allocations))
  }

  ghost predicate HeldUp(s: Store, id: Uuid, d: Direction, e: nat, max: nat) {
    && id in s.reservations && e < |s.reservations[id].allocations|
    && Unfinished(s.reservations[id], d) && Doomed(d, s.providers, s.reservations[id].allocations[e], max)
  }

  /** Neither a user nor a worker within the cap gets past a doomed allocation. */
  lemma DoomedStays(d: Direction, c: Context, providers: Providers, a: Allocation, reply: Reply, b: Allocation, max: nat)
    requires Doomed(d, providers, a, max) && (c.retryUnknown ==> c.maxAttempts <= max)
    requires SettledTo(d, c, ProviderRow(providers, a.key.provider), a, reply, b)
    ensures Doomed(d, providers, b, max) && b.status.Unknown?
  {
  }

  lemma DoomedSettlement(s: Store, id: Uuid, d: Direction, e: nat, c: Context, replies: nat -> Reply, max: nat)
    requires HeldUp(s, id, d, e, max) && (c.retryUnknown ==> c.maxAttempts <= max)
    requires SettleFrom(d, c, s.providers, Books(s.offers, s.reservations[id].allocations), 0, replies).Commit?
    ensures var t := SettleFrom(d, c, s.providers, Books(s.offers, s.reservations[id].allocations), 0, replies).value.allocations;
            e < |t| && Doomed(d, s.providers, t[e], max) && t[e].status.Unknown? && t[e] in t
  {
    var b := Books(s.offers, s.reservations[id].allocations);
    SettleFromPointwise(d, c, s.providers, b, 0, replies);
    hide SettleFrom, SettledTo, Doomed;
    var t := SettleFrom(d, c, s.providers, b, 0, replies).value.allocations;
    DoomedStays(d, c, s.providers, b.allocations[e], replies(e), t[e], max);
  }

  lemma DoomedConfirm(s: Store, id: Uuid, e: nat, c: Context, replies: nat -> Reply, max: nat)
    requires HeldUp(s, id, ToConfirm, e, max) && (c.retryUnknown ==> c.maxAttempts <= max)
    requires ConfirmRow(s, id, c, replies).Commit?
    ensures HeldUp(ConfirmRow(s, id, c, replies).value, id, ToConfirm, e, max)
  {
    hide SettleFrom, Doomed;
    DoomedSettlement(s, id, ToConfirm, e, c, replies, max);
  }

  lemma DoomedRelease(s: Store, id: Uuid, e: nat, terminal: ReservationStatus, c: Context, replies: nat -> Reply, max: nat)
    requires HeldUp(s, id, ToRelease, e, max) && (c.retryUnknown ==> c.maxAttempts <= max) && IsReleaseTarget(Some(terminal))
    requires ReleaseRow(s, id, terminal, c, replies).Commit?
    ensures HeldUp(ReleaseRow(s, id, terminal, c, replies).value, id, ToRelease, e, max)
  {
    hide SettleFrom, Doomed;
    DoomedSettlement(s, id, ToRelease, e, c, replies, max);
  }

  lemma DoomedReconcile(s: Store, id: Uuid, d: Direction, e: nat, c: Context, replies: nat -> Reply, max: nat)
    requires HeldUp(s, id, d, e, max) && c.maxAttempts <= max
    requires ReconcileRow(s, id, c, replies).Commit?
    ensures HeldUp(ReconcileRow(s, id, c, replies).value, id, d, e, max)
  {
    hide ReleaseRow, ConfirmRow, Doomed;
    var r := s.reservations[id];
    if r.status.Releasing? {
      DoomedRelease(s, id, e, r.target.value, c, replies, max);
    } else if r.status.Confirming? {
      DoomedConfirm(s, id, e, c, replies, max);
    }
  }

  lemma ElsewhereKeepsHeldUp(s: Store, t: Store, id: Uuid, d: Direction, e: nat, max: nat)
    requires HeldUp(s, id, d, e, max) && KindsKept(s.providers, t.providers)
    requires id in t.reservations && t.reservations[id] == s.reservations[id]
    ensures HeldUp(t, id, d, e, max)
  {
  }

  lemma {:induction false} DoomedBatch(s: Store, rows: seq<Uuid>, c: Context, replies: Uuid -> nat -> Reply, id: Uuid, d: Direction, e: nat, max: nat)
    requires HeldUp(s, id, d, e, max) && c.maxAttempts <= max
    requires forall x | x in rows :: x in s.reservations
    requires ReconcileRows(s, rows, c, replies).Commit?
    ensures HeldUp(ReconcileRows(s, rows, c, replies).value, id, d, e, max)
    decreases |rows|
  {
    hide HeldUp, ReconcileRow;
    if rows != [] {
      var next := ReconcileRow(s, rows[0], c, replies(rows[0])).value;
      ReconcileRowElsewhere(s, rows[0], c, replies(rows[0]));
      ReconcileRowFrame(s, rows[0], c, replies(rows[0]));
      if rows[0] == id {
        DoomedReconcile(s, id, d, e, c, replies(id), max);
      } else {
        HeldUpExists(s, id, d, e, max);
        ElsewhereKeepsHeldUp(s, next, id, d, e, max);
      }
      DoomedBatch(next, rows[1..], c, replies, id, d, e, max);
    }
  }

  lemma HeldUpExists(s: Store, id: Uuid, d: Direction, e: nat, max: nat)
    requires HeldUp(s, id, d, e, max)
    ensures id in s.reservations
  {
  }

  lemma ReconcileRowFrame(s: Store, id: Uuid, c: Context, replies: nat -> Reply)
    requires id in s.reservations && ReconcileRow(s, id, c, replies).Commit?
    ensures var t := ReconcileRow(s, id, c, replies).value;
            t.providers == s.providers && s.reservations.Keys == t.reservations.Keys
  {
    hide SettleFrom;
  }

  /** What the customer may still do about it within the lifecycle gets no further either. */
  lemma DoomedByUser(s: Store, step: Step, id: Uuid, d: Direction, e: nat, max: nat)
    requires HeldUp(s, id, d, e, max) && TouchesByUser(step, id) && Respects(s, step)
    ensures HeldUp(Apply(s, step), id, d, e, max)
  {
    hide SettleFrom, Doomed, ConfirmRow, ReleaseRow;
    if Owns(s, id, step.user) && Attempt(s, step).Commit? {
      if step.ConfirmStep? {
        DoomedConfirm(s, id, e, USER_CONTEXT, step.replies, max);
      } else {
        DoomedRelease(s, id, e, ReservationStatus.Cancelled, USER_CONTEXT, step.replies, max);
      }
    }
  }

  lemma DoomedStep(s: Store, step: Step, id: Uuid, d: Direction, e: nat, max: nat)
    requires HeldUp(s, id, d, e, max) && Possible(s, step) && Respects(s, step)
    requires step.ReconcileStep? ==> step.maxAttempts <= max
    ensures HeldUp(Apply(s, step), id, d, e, max)
  {
    if TouchesByUser(step, id) {
      DoomedByUser(s, step, id, d, e, max);
    } else if Backoff.WorkerTries(s, step, id) {
      hide HeldUp, ReconcileRow;
      DoomedBatch(s, step.rows, WorkerContext(step.now, step.maxAttempts, step.baseDelay), step.batch, id, d, e, max);
    } else {
      Backoff.OtherStepsKeepRow(s, step, id);
      Backoff.StepCatalogue(s, step);
      hide HeldUp, Attempt, Apply;
      ElsewhereKeepsHeldUp(s, Apply(s, step), id, d, e, max);
    }
  }

  /** Every worker of the run allows at most `max` attempts. */
  ghost predicate WithinCap(steps: seq<Step>, max: nat) {
    forall step | step in steps :: step.ReconcileStep? ==> step.maxAttempts <= max
  }

  /** A doomed allocation holds its reservation for ever: over every lifecycle-respecting run with caps up to `max`,
      whatever the customer retries and the operator reconfigures, it stays RELEASING, or never becomes CONFIRMED. */
  lemma {:induction false} DoomedIsNeverFinished(s: Store, steps: seq<Step>, id: Uuid, d: Direction, e: nat, max: nat)
    requires HeldUp(s, id, d, e, max) && LifecycleRun(s, steps) && WithinCap(steps, max)
    ensures ValidRun(s, steps) && HeldUp(Run(s, steps), id, d, e, max)
    decreases |steps|
  {
    hide HeldUp, Apply, Possible, Respects;
    if steps != [] {
      assert steps[0] in steps && forall x | x in steps[1..] :: x in steps;
      DoomedStep(s, steps[0], id, d, e, max);
      DoomedIsNeverFinished(Apply(s, steps[0]), steps[1..], id, d, e, max);
    }
  }

  // ----- And which can -----

  /** One call may finish this allocation: it is finished, or its provider can be called and its operation is not parked. */
  predicate Passable(d: Direction, c: Context, providers: Providers, a: Allocation) {
    a.status == DoneStatus(d)
    || (!Batches.Unserved(d, providers, a) && (OperationOf(d, a).Some? ==> !Parked(OperationOf(d, a).value, c)))
  }

  predicate AllPassable(d: Direction, c: Context, providers: Providers, r: Reservation) {
    forall a | a in r.allocations :: Passable(d, c, providers, a)
  }

  predicate Finished(r: Reservation, d: Direction) {
    if d.ToConfirm? then r.status.Confirmed? else r.status.Cancelled? || r.status.Expired? || r.status.Failed?
  }

  /** Does settling the reservation with these answers finish it? */
  ghost predicate Finishes(s: Store, id: Uuid, d: Direction, terminal: ReservationStatus, c: Context, replies: nat -> Reply)
    requires id in s.reservations
  {
    var x := if d.ToConfirm? then ConfirmRow(s, id, c, replies) else ReleaseRow(s, id, terminal, c, replies);
    x.Commit? && Finished(x.value.reservations[id], d)
  }

  lemma {:induction false} PassableSettles(d: Direction, c: Context, providers: Providers, b: Books, i: nat, replies: nat -> Reply)
    requires i <= |b.allocations|
    requires forall j | i <= j < |b.allocations| ::
               && Passable(d, c, providers, b.allocations[j]) && replies(j).Done?
               && (b.allocations[j].status == DoneStatus(d) || !IsInternal(providers, b.allocations[j].key.provider))
    ensures var x := SettleFrom(d, c, providers, b, i, replies);
            && x.Commit? && |x.value.allocations| == |b.allocations|
            && (forall j | 0 <= j < i :: x.value.allocations[j] == b.allocations[j])
            && (forall j | i <= j < |b.allocations| :: x.value.allocations[j].status == DoneStatus(d))
    decreases |b.allocations| - i
  {
    if i < |b.allocations| {
      var a := b.allocations[i];
      var x := SettleOne(d, c, ProviderRow(providers, a.key.provider), b.offers, a, replies(i));
      assert x.Commit? && x.value.allocation.status == DoneStatus(d);
      hide SettleOne, Passable, IsInternal;
      var next := Books(x.value.offers, b.allocations[i := x.value.allocation]);
      assert forall j | i < j < |b.allocations| :: next.allocations[j] == b.allocations[j];
      PassableSettles(d, c, providers, next, i + 1, replies);
    }
  }

  lemma UnderwayIsSided(s: Store, id: Uuid, d: Direction)
    requires Live(s) && id in s.reservations && Underway(s.reservations[id], d)
    ensures s.reservations[id].items != [] && |s.reservations[id].allocations| <= |s.reservations[id].items|
    ensures d.ToConfirm? ==> |s.reservations[id].allocations| == |s.reservations[id].items|
    ensures forall a | a in s.reservations[id].allocations ::
              && Sided(d, s.providers, a) && a.key.provider in s.providers
              && (a.status == DoneStatus(d) || !IsInternal(s.providers, a.key.provider))
  {
    assert Tabled(s.providers, s.reservations[id]) && RowOk(s.providers, s.reservations[id]);
  }

  lemma UnpassableStays(d: Direction, c: Context, providers: Providers, a: Allocation, reply: Reply, b: Allocation)
    requires !Passable(d, c, providers, a) && !IsInternal(providers, a.key.provider)
    ensures !(SettledTo(d, c, ProviderRow(providers, a.key.provider), a, reply, b) && b.status == DoneStatus(d))
  {
  }

  lemma FinishesNeedsPassable(s: Store, id: Uuid, d: Direction, terminal: ReservationStatus, c: Context, replies: nat -> Reply)
    requires Live(s) && id in s.reservations && Underway(s.reservations[id], d) && IsReleaseTarget(Some(terminal))
    requires Finishes(s, id, d, terminal, c, replies)
    ensures AllPassable(d, c, s.providers, s.reservations[id])
  {
    var r := s.reservations[id];
    UnderwayIsSided(s, id, d);
    var b := Books(s.offers, r.allocations);
    SettleFromPointwise(d, c, s.providers, b, 0, replies);
    var t := SettleFrom(d, c, s.providers, b, 0, replies).value;
    FinishedIsDone(s, id, d, terminal, c, replies);
    hide SettleFrom, SettledTo, Passable, Sided, Live, Finishes, IsInternal;
    forall a | a in r.allocations ensures Passable(d, c, s.providers, a) {
      var j :| 0 <= j < |r.allocations| && r.allocations[j] == a;
      if !Passable(d, c, s.providers, a) {
        DoneIsPassable(d, c, s.providers, a);
        UnpassableStays(d, c, s.providers, a, replies(j), t.allocations[j]);
      }
    }
  }

  lemma DoneIsPassable(d: Direction, c: Context, providers: Providers, a: Allocation)
    ensures a.status == DoneStatus(d) ==> Passable(d, c, providers, a)
  {
  }

  lemma FinishedIsDone(s: Store, id: Uuid, d: Direction, terminal: ReservationStatus, c: Context, replies: nat -> Reply)
    requires id in s.reservations && IsReleaseTarget(Some(terminal)) && Finishes(s, id, d, terminal, c, replies)
    ensures var x := SettleFrom(d, c, s.providers, Books(s.offers, s.reservations[id].allocations), 0, replies);
            x.Commit? && forall j | 0 <= j < |x.value.allocations| :: x.value.allocations[j].status == DoneStatus(d)
  {
    hide SettleFrom;
    var x := SettleFrom(d, c, s.providers, Books(s.offers, s.reservations[id].allocations), 0, replies);
    if x.Commit? {
      forall j | 0 <= j < |x.value.allocations| ensures x.value.allocations[j].status == DoneStatus(d) {
        assert x.value.allocations[j] in x.value.allocations;
      }
    }
  }

  const WILLING: nat -> Reply := j => Done

  lemma PassableFinishes(s: Store, id: Uuid, d: Direction, terminal: ReservationStatus, c: Context)
    requires Live(s) && id in s.reservations && Underway(s.reservations[id], d) && IsReleaseTarget(Some(terminal))
    requires AllPassable(d, c, s.providers, s.reservations[id])
    ensures Finishes(s, id, d, terminal, c, WILLING)
  {
    var r := s.reservations[id];
    UnderwayIsSided(s, id, d);
    hide Passable, Sided, IsInternal, Live;
    forall j | 0 <= j < |r.allocations|
      ensures Passable(d, c, s.providers, r.allocations[j])
              && (r.allocations[j].status == DoneStatus(d) || !IsInternal(s.providers, r.allocations[j].key.provider))
    {
      assert r.allocations[j] in r.allocations;
    }
    PassableSettles(d, c, s.providers, Books(s.offers, r.allocations), 0, WILLING);
    hide SettleFrom;
  }

  /** One confirmation, release or retry of a reservation that is underway can finish it, if the providers are willing,
      exactly when each unfinished allocation can be called: its provider is served, it has a reference, and its
      operation is not parked. For a worker that is one below its cap, for the customer one of known outcome. */
  lemma CallCanFinishIff(s: Store, id: Uuid, d: Direction, terminal: ReservationStatus, c: Context)
    requires Live(s) && id in s.reservations && Underway(s.reservations[id], d) && IsReleaseTarget(Some(terminal))
    ensures (exists replies :: Finishes(s, id, d, terminal, c, replies)) <==> AllPassable(d, c, s.providers, s.reservations[id])
  {
    if replies :| Finishes(s, id, d, terminal, c, replies) { FinishesNeedsPassable(s, id, d, terminal, c, replies); }
    if AllPassable(d, c, s.providers, s.reservations[id]) { PassableFinishes(s, id, d, terminal, c); }
  }

  // ----- Over whole runs -----

  predicate NoneDoomed(d: Direction, providers: Providers, r: Reservation, max: nat) {
    forall a | a in r.allocations :: !Doomed(d, providers, a, max)
  }

  /** The operator makes every provider callable again. */
  function Restored(providers: Providers): Providers {
    map id | id in providers :: providers[id].(http := true, confirm := true, release := true)
  }

  lemma RestoredStore(s: Store)
    requires Live(s)
    ensures var step := ConfigureStep(s.products, Restored(s.providers));
            && Possible(s, step) && Respects(s, step)
            && Apply(s, step) == s.(providers := Restored(s.providers)) && Live(Apply(s, step))
  {
    StepLive(s, ConfigureStep(s.products, Restored(s.providers)));
    hide Live;
  }

  lemma RestoredIsPassable(d: Direction, c: Context, providers: Providers, a: Allocation, max: nat)
    requires a.key.provider in providers && !Doomed(d, providers, a, max)
    requires a.status == DoneStatus(d) || !IsInternal(providers, a.key.provider)
    requires OperationOf(d, a).Some? && OperationOf(d, a).value.status.Unknown? ==> c.retryUnknown && c.maxAttempts >= max
    ensures Passable(d, c, Restored(providers), a)
  {
  }

  /** With every provider restored, a call that retries what is unknown can finish the reservation. */
  lemma RestoredFinishes(s: Store, id: Uuid, d: Direction, terminal: ReservationStatus, c: Context, max: nat)
    requires Live(s) && id in s.reservations && Underway(s.reservations[id], d) && IsReleaseTarget(Some(terminal))
    requires NoneDoomed(d, s.providers, s.reservations[id], max)
    requires (c.retryUnknown && c.maxAttempts >= max)
             || forall a | a in s.reservations[id].allocations :: !(OperationOf(d, a).Some? && OperationOf(d, a).value.status.Unknown?)
    ensures Finishes(s.(providers := Restored(s.providers)), id, d, terminal, c, WILLING)
  {
    var t := s.(providers := Restored(s.providers));
    RestoredStore(s);
    UnderwayIsSided(s, id, d);
    hide Live, Passable, Doomed, Sided, Restored, IsInternal, Apply;
    forall a | a in s.reservations[id].allocations ensures Passable(d, c, t.providers, a) {
      RestoredIsPassable(d, c, s.providers, a, max);
    }
    PassableFinishes(t, id, d, terminal, c);
  }

  /** A run that respects the lifecycle and the cap and finishes the reservation. */
  ghost predicate FinishingRun(s: Store, steps: seq<Step>, id: Uuid, d: Direction, max: nat) {
    && LifecycleRun(s, steps) && WithinCap(steps, max) && ValidRun(s, steps)
    && id in Run(s, steps).reservations && Finished(Run(s, steps).reservations[id], d)
  }

  lemma TwoSteps(s: Store, t: Store, first: Step, second: Step)
    requires Possible(s, first) && Respects(s, first) && Apply(s, first) == t
    requires Possible(t, second) && Respects(t, second)
    ensures LifecycleRun(s, [first, second]) && ValidRun(s, [first, second]) && Run(s, [first, second]) == Apply(t, second)
  {
    hide Apply, Possible, Respects;
    assert [first, second][1..] == [second] && [second][1..] == [];
    assert LifecycleRun(Apply(t, second), []) && ValidRun(Apply(t, second), []) && Run(Apply(t, second), []) == Apply(t, second);
    assert LifecycleRun(t, [second]) && ValidRun(t, [second]) && Run(t, [second]) == Apply(t, second);
  }

  /** The customer's own retry. */
  function UserCall(r: Reservation, d: Direction): Step {
    if d.ToConfirm? then ConfirmStep(r.id, r.user, WILLING) else CancelStep(r.id, r.user, WILLING)
  }

  lemma UserFinishes(s: Store, id: Uuid, d: Direction)
    requires id in s.reservations && s.reservations[id].id == id && Underway(s.reservations[id], d)
    requires Finishes(s, id, d, ReservationStatus.Cancelled, USER_CONTEXT, WILLING)
    ensures var step := UserCall(s.reservations[id], d);
            && Possible(s, step) && Respects(s, step)
            && id in Apply(s, step).reservations && Finished(Apply(s, step).reservations[id], d)
  {
    hide ConfirmRow, ReleaseRow;
    RowsStay(s, id, d, ReservationStatus.Cancelled, USER_CONTEXT);
  }

  lemma RowsStay(s: Store, id: Uuid, d: Direction, terminal: ReservationStatus, c: Context)
    requires id in s.reservations
    ensures var x := if d.ToConfirm? then ConfirmRow(s, id, c, WILLING) else ReleaseRow(s, id, terminal, c, WILLING);
            x.Commit? ==> id in x.value.reservations
  {
    hide SettleFrom;
  }

  /** A worker's pass over this reservation alone. */
  function WorkerCall(id: Uuid, now: int, max: nat): Step {
    ReconcileStep(now, 1, max, 1, {}, [id], _ => WILLING)
  }

  lemma WorkerFinishes(s: Store, id: Uuid, d: Direction, now: int, max: nat)
    requires id in s.reservations && Underway(s.reservations[id], d) && Selectable(s.reservations[id], now, max)
    requires Finishes(s, id, d, if d.ToConfirm? then ReservationStatus.Cancelled else s.reservations[id].target.value, WorkerContext(now, max, 1), WILLING)
    ensures var step := WorkerCall(id, now, max);
            && Possible(s, step) && Respects(s, step)
            && id in Apply(s, step).reservations && Finished(Apply(s, step).reservations[id], d)
  {
    hide ConfirmRow, ReleaseRow, Selectable;
    var c := WorkerContext(now, max, 1);
    var terminal := if d.ToConfirm? then ReservationStatus.Cancelled else s.reservations[id].target.value;
    RowsStay(s, id, d, terminal, c);
    var step := WorkerCall(id, now, max);
    assert step.rows[1..] == [];
    assert ReconcileRows(s, step.rows, c, step.batch) == ReconcileRow(s, id, c, WILLING);
  }

  lemma WorkerCanFinish(s: Store, id: Uuid, d: Direction, max: nat) returns (call: Step)
    requires Live(s) && id in s.reservations && Underway(s.reservations[id], d)
    requires NoneDoomed(d, s.providers, s.reservations[id], max) && !Stuck(s.reservations[id], d, max)
    ensures var t := s.(providers := Restored(s.providers));
            && Possible(t, call) && Respects(t, call) && WithinCap([call], max)
            && id in Apply(t, call).reservations && Finished(Apply(t, call).reservations[id], d)
  {
    hide Finishes, Finished, Live, Apply, Selectable, Possible, Respects, Stuck, NoneDoomed, Restored;
    var r := s.reservations[id];
    NeverSelectableIff(r, d, max);
    var now :| Selectable(r, now, max);
    var terminal := if d.ToConfirm? then ReservationStatus.Cancelled else r.target.value;
    RestoredFinishes(s, id, d, terminal, WorkerContext(now, max, 1), max);
    WorkerFinishes(s.(providers := Restored(s.providers)), id, d, now, max);
    call := WorkerCall(id, now, max);
  }

  lemma UserCanFinish(s: Store, id: Uuid, d: Direction, max: nat) returns (call: Step)
    requires Live(s) && id in s.reservations && Underway(s.reservations[id], d)
    requires NoneDoomed(d, s.providers, s.reservations[id], max) && Stuck(s.reservations[id], d, max)
    ensures var t := s.(providers := Restored(s.providers));
            && Possible(t, call) && Respects(t, call) && WithinCap([call], max)
            && id in Apply(t, call).reservations && Finished(Apply(t, call).reservations[id], d)
  {
    UnderwayIsSided(s, id, d);
    StuckAndNoneDoomed(s, id, d, max);
    assert s.reservations[id].id == id;
    hide Finishes, Finished, Live, Apply, Underway, Stuck, NoneDoomed, Sided, Possible;
    RestoredFinishes(s, id, d, ReservationStatus.Cancelled, USER_CONTEXT, max);
    UserFinishes(s.(providers := Restored(s.providers)), id, d);
    call := UserCall(s.reservations[id], d);
  }

  /** Stuck without a doomed allocation: no outcome is unknown at all. */
  lemma StuckAndNoneDoomed(s: Store, id: Uuid, d: Direction, max: nat)
    requires Live(s) && id in s.reservations && Underway(s.reservations[id], d)
    requires NoneDoomed(d, s.providers, s.reservations[id], max) && Stuck(s.reservations[id], d, max)
    ensures forall a | a in s.reservations[id].allocations :: !(OperationOf(d, a).Some? && OperationOf(d, a).value.status.Unknown?)
  {
    UnderwayIsSided(s, id, d);
    hide Live, Underway;
  }

  lemma FinishingRunExists(s: Store, id: Uuid, d: Direction, max: nat) returns (steps: seq<Step>)
    requires Live(s) && id in s.reservations && Underway(s.reservations[id], d)
    requires NoneDoomed(d, s.providers, s.reservations[id], max)
    ensures FinishingRun(s, steps, id, d, max)
  {
    hide Finishes, Finished, Live, Apply, LifecycleRun, ValidRun, Run, Possible, Respects, Underway, NoneDoomed, Stuck, Restored;
    RestoredStore(s);
    var call: Step;
    if Stuck(s.reservations[id], d, max) {
      call := UserCanFinish(s, id, d, max);
    } else {
      call := WorkerCanFinish(s, id, d, max);
    }
    var restore := ConfigureStep(s.products, Restored(s.providers));
    TwoSteps(s, s.(providers := Restored(s.providers)), restore, call);
    assert call in [call];
    steps := [restore, call];
  }

  lemma DoomedHoldsUp(s: Store, id: Uuid, d: Direction, e: nat, max: nat)
    requires id in s.reservations && Underway(s.reservations[id], d)
    requires e < |s.reservations[id].allocations| && Doomed(d, s.providers, s.reservations[id].allocations[e], max)
    ensures HeldUp(s, id, d, e, max)
  {
  }

  lemma HeldUpIsUnfinished(s: Store, id: Uuid, d: Direction, e: nat, max: nat)
    requires HeldUp(s, id, d, e, max)
    ensures id in s.reservations && !Finished(s.reservations[id], d)
  {
  }

  /** The exact condition for finishing what was begun: some lifecycle-respecting run with caps up to `max` completes
      the release, or confirms, exactly when no unfinished allocation is doomed. */
  lemma FinishableIff(s: Store, id: Uuid, d: Direction, max: nat)
    requires Live(s) && id in s.reservations && Underway(s.reservations[id], d)
    ensures (exists steps :: FinishingRun(s, steps, id, d, max)) <==> NoneDoomed(d, s.providers, s.reservations[id], max)
  {
    if NoneDoomed(d, s.providers, s.reservations[id], max) {
      var steps := FinishingRunExists(s, id, d, max);
    } else {
      var a :| a in s.reservations[id].allocations && Doomed(d, s.providers, a, max);
      var e :| 0 <= e < |s.reservations[id].allocations| && s.reservations[id].allocations[e] == a;
      DoomedHoldsUp(s, id, d, e, max);
      hide Doomed, Live, LifecycleRun, ValidRun, Run, HeldUp;
      forall steps ensures !FinishingRun(s, steps, id, d, max) {
        if LifecycleRun(s, steps) && WithinCap(steps, max) {
          DoomedIsNeverFinished(s, steps, id, d, e, max);
          HeldUpIsUnfinished(Run(s, steps), id, d, e, max);
        }
      }
    }
  }
}
