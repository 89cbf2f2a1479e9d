/** Exponential backoff of a reservation that waits for one provider whose answers stay unknown. */
module Backoff {
  import opened Types
  import opened Settlement
  import opened Transactions
  import opened Consistency
  import opened Lifecycle
  import opened Retry
  import Batches
  import Expiry
  import Reconciliation
  import Routing

  /** The reservation is on its way in direction `d` and waits only for allocation `e`, whose outcome is unknown. */
  predicate Waiting(providers: Providers, r: Reservation, d: Direction, e: nat) {
    && r.status == (if d.ToConfirm? then ReservationStatus.Confirming else ReservationStatus.Releasing)
    && (d.ToRelease? ==> IsReleaseTarget(r.target))
    && e < |r.allocations|
    && (forall j | 0 <= j < |r.allocations| && j != e :: r.allocations[j].status == DoneStatus(d))
    && r.allocations[e].status.Unknown?
    && r.allocations[e].key.provider in providers && !IsInternal(providers, r.allocations[e].key.provider)
    && OperationOf(d, r.allocations[e]).Some?
    && OperationOf(d, r.allocations[e]).value.status.Unknown?
  }

  function WaitingOperation(r: Reservation, d: Direction, e: nat): Operation
    requires e < |r.allocations| && OperationOf(d, r.allocations[e]).Some?
  {
    OperationOf(d, r.allocations[e]).value
  }

  // ----- Settling a waiting reservation -----

  lemma {:induction false} DoneSuffix(d: Direction, c: Context, providers: Providers, b: Books, i: nat, replies: nat -> Reply)
    requires i <= |b.allocations|
    requires forall j | i <= j < |b.allocations| :: b.allocations[j].status == DoneStatus(d)
    ensures SettleFrom(d, c, providers, b, i, replies) == Commit(b)
    decreases |b.allocations| - i
  {
    if i < |b.allocations| {
      assert b.allocations[i := b.allocations[i]] == b.allocations;
      DoneSuffix(d, c, providers, b, i + 1, replies);
    }
  }

  /** Only the waiting allocation is settled; the offers are not touched. */
  lemma {:induction false} WaitingSettlement(d: Direction, c: Context, providers: Providers, b: Books, i: nat, e: nat, replies: nat -> Reply)
    requires i <= e < |b.allocations|
    requires forall j | 0 <= j < |b.allocations| && j != e :: b.allocations[j].status == DoneStatus(d)
    requires b.allocations[e].status.Unknown? && !IsInternal(providers, b.allocations[e].key.provider)
    ensures SettleFrom(d, c, providers, b, i, replies)
            == match SettleExternal(d, c, ProviderRow(providers, b.allocations[e].key.provider), b.allocations[e], replies(e))
               case Raise(x) => Raise(x)
               case Commit(a) => Commit(Books(b.offers, b.allocations[e := a]))
    decreases e - i
  {
    if i < e {
      assert b.allocations[i := b.allocations[i]] == b.allocations;
      WaitingSettlement(d, c, providers, b, i + 1, e, replies);
    } else {
      match SettleExternal(d, c, ProviderRow(providers, b.allocations[e].key.provider), b.allocations[e], replies(e)) {
        case Raise(_) =>
        case Commit(a) => DoneSuffix(d, c, providers, Books(b.offers, b.allocations[e := a]), e + 1, replies);
      }
    }
  }

  /** The row after its waiting operation was tried `op.attempts` times, still without an answer. */
  function StillWaiting(r: Reservation, d: Direction, e: nat, op: Operation): Reservation
    requires e < |r.allocations|
  {
    r.(allocations := r.allocations[e := WithOperation(d, r.allocations[e], op, AllocationStatus.Unknown)])
  }

  lemma SameOperationSameRow(providers: Providers, r: Reservation, d: Direction, e: nat)
    requires Waiting(providers, r, d, e)
    ensures StillWaiting(r, d, e, WaitingOperation(r, d, e)) == r
  {
    var a := r.allocations[e];
    assert WithOperation(d, a, WaitingOperation(r, d, e), AllocationStatus.Unknown) == a;
    assert r.allocations[e := a] == r.allocations;
  }

  lemma StillWaitingWaits(providers: Providers, r: Reservation, d: Direction, e: nat, op: Operation)
    requires Waiting(providers, r, d, e) && op.status.Unknown?
    ensures Waiting(providers, StillWaiting(r, d, e, op), d, e)
    ensures WaitingOperation(StillWaiting(r, d, e, op), d, e) == op
    ensures var t := StillWaiting(r, d, e, op).allocations;
            !AllReleased(t) && ConfirmedStatus(t) == if d.ToConfirm? then ReservationStatus.Confirming else ConfirmedStatus(t)
  {
    var t := StillWaiting(r, d, e, op).allocations;
    assert t[e] in t;
    if d.ToConfirm? {
      forall a | a in t ensures !a.status.Failed? {
        var j :| 0 <= j < |t| && t[j] == a;
      }
    }
  }

  /** What settling leaves in the row, given that any call comes back unknown. */
  function NextOperation(op: Operation, c: Context): Operation {
    if Parked(op, c) then op else Operation(OperationStatus.Unknown, op.attempts + 1, NextAttemptAt(c, op.attempts + 1))
  }

  lemma WaitingBooks(s: Store, id: Uuid, d: Direction, e: nat, c: Context, replies: nat -> Reply)
    requires id in s.reservations && Waiting(s.providers, s.reservations[id], d, e) && replies(e).Unknown?
    requires SettleFrom(d, c, s.providers, Books(s.offers, s.reservations[id].allocations), 0, replies).Commit?
    ensures var r := s.reservations[id];
            SettleFrom(d, c, s.providers, Books(s.offers, r.allocations), 0, replies)
            == Commit(Books(s.offers, StillWaiting(r, d, e, NextOperation(WaitingOperation(r, d, e), c)).allocations))
  {
    var r := s.reservations[id];
    WaitingSettlement(d, c, s.providers, Books(s.offers, r.allocations), 0, e, replies);
    assert WithOperation(d, r.allocations[e], WaitingOperation(r, d, e), AllocationStatus.Unknown) == r.allocations[e].(status := AllocationStatus.Unknown);
  }

  lemma ConfirmWaiting(s: Store, id: Uuid, e: nat, c: Context, replies: nat -> Reply)
    requires id in s.reservations && Waiting(s.providers, s.reservations[id], ToConfirm, e) && replies(e).Unknown?
    requires ConfirmRow(s, id, c, replies).Commit?
    ensures ConfirmRow(s, id, c, replies).value.reservations
            == s.reservations[id := StillWaiting(s.reservations[id], ToConfirm, e, NextOperation(WaitingOperation(s.reservations[id], ToConfirm, e), c))]
  {
    var r := s.reservations[id];
    WaitingBooks(s, id, ToConfirm, e, c, replies);
    StillWaitingWaits(s.providers, r, ToConfirm, e, NextOperation(WaitingOperation(r, ToConfirm, e), c));
  }

  lemma ReleaseWaiting(s: Store, id: Uuid, e: nat, terminal: ReservationStatus, c: Context, replies: nat -> Reply)
    requires id in s.reservations && Waiting(s.providers, s.reservations[id], ToRelease, e) && replies(e).Unknown?
    requires ReleaseRow(s, id, terminal, c, replies).Commit?
    ensures ReleaseRow(s, id, terminal, c, replies).value.reservations
            == s.reservations[id := StillWaiting(s.reservations[id], ToRelease, e, NextOperation(WaitingOperation(s.reservations[id], ToRelease, e), c)).(target := Some(terminal))]
  {
    var r := s.reservations[id];
    WaitingBooks(s, id, ToRelease, e, c, replies);
    StillWaitingWaits(s.providers, r, ToRelease, e, NextOperation(WaitingOperation(r, ToRelease, e), c));
  }

  /** A worker's turn at the waiting row: one more attempt, scheduled further out. */
  lemma ReconcileWaiting(s: Store, id: Uuid, d: Direction, e: nat, c: Context, replies: nat -> Reply)
    requires id in s.reservations && Waiting(s.providers, s.reservations[id], d, e) && replies(e).Unknown?
    requires ReconcileRow(s, id, c, replies).Commit?
    ensures ReconcileRow(s, id, c, replies).value.reservations
            == s.reservations[id := StillWaiting(s.reservations[id], d, e, NextOperation(WaitingOperation(s.reservations[id], d, e), c))]
  {
    if d.ToConfirm? {
      ConfirmWaiting(s, id, e, c, replies);
    } else {
      ReleaseWaiting(s, id, e, s.reservations[id].target.value, c, replies);
    }
  }

  // ----- Steps seen from the waiting reservation -----

  lemma {:induction false} ReconcileRowsElsewhere(s: Store, rows: seq<Uuid>, c: Context, replies: Uuid -> nat -> Reply, id: Uuid)
    requires forall x | x in rows :: x in s.reservations
    requires id in s.reservations && id !in rows
    requires ReconcileRows(s, rows, c, replies).Commit?
    ensures var t := ReconcileRows(s, rows, c, replies).value;
            id in t.reservations && t.reservations[id] == s.reservations[id] && t.providers == s.providers
    decreases |rows|
  {
    if rows != [] {
      ReconcileRowsElsewhere(ReconcileRow(s, rows[0], c, replies(rows[0])).value, rows[1..], c, replies, id);
    }
  }

  lemma {:induction false} ReconcileRowsWaiting(s: Store, rows: seq<Uuid>, c: Context, replies: Uuid -> nat -> Reply, id: Uuid, d: Direction, e: nat)
    requires Routing.Distinct(rows) && forall x | x in rows :: x in s.reservations
    requires id in rows && Waiting(s.providers, s.reservations[id], d, e) && replies(id)(e).Unknown?
    requires ReconcileRows(s, rows, c, replies).Commit?
    ensures var t := ReconcileRows(s, rows, c, replies).value;
            && id in t.reservations
            && t.reservations[id] == StillWaiting(s.reservations[id], d, e, NextOperation(WaitingOperation(s.reservations[id], d, e), c))
    decreases |rows|
  {
    var next := ReconcileRow(s, rows[0], c, replies(rows[0])).value;
    if rows[0] == id {
      ReconcileWaiting(s, id, d, e, c, replies(id));
      assert id !in rows[1..];
      ReconcileRowsElsewhere(next, rows[1..], c, replies, id);
    } else {
      assert next.reservations[id] == s.reservations[id] && next.providers == s.providers;
      ReconcileRowsWaiting(next, rows[1..], c, replies, id, d, e);
    }
  }

  /** Every call for the waiting allocation comes back unknown. */
  ghost predicate AnswersUnknown(step: Step, id: Uuid, e: nat) {
    match step
    case ConfirmStep(x, _, replies) => x == id ==> replies(e).Unknown?
    case CancelStep(x, _, replies) => x == id ==> replies(e).Unknown?
    case ReconcileStep(_, _, _, _, _, _, batch) => batch(id)(e).Unknown?
    case _ => true
  }

  /** Did the worker try the reservation in this step, in a pass that was committed? */
  ghost predicate WorkerTries(s: Store, step: Step, id: Uuid)
    requires Possible(s, step)
  {
    step.ReconcileStep? && id in step.rows && Attempt(s, step).Commit?
  }

  /** A user's retry of a waiting reservation calls nobody and leaves the operation alone. */
  lemma UserRetryKeepsOperation(s: Store, step: Step, id: Uuid, d: Direction, e: nat)
    requires (step.ConfirmStep? || step.CancelStep?) && step.id == id && Respects(s, step)
    requires id in s.reservations && Waiting(s.providers, s.reservations[id], d, e) && step.replies(e).Unknown?
    ensures var t := Apply(s, step);
            && id in t.reservations && Waiting(t.providers, t.reservations[id], d, e)
            && WaitingOperation(t.reservations[id], d, e) == WaitingOperation(s.reservations[id], d, e)
  {
    var r := s.reservations[id];
    SameOperationSameRow(s.providers, r, d, e);
    StillWaitingWaits(s.providers, r, d, e, WaitingOperation(r, d, e));
    if Owns(s, id, step.user) {
      if step.ConfirmStep? && d.ToConfirm? {
        if ConfirmRow(s, id, USER_CONTEXT, step.replies).Commit? { ConfirmWaiting(s, id, e, USER_CONTEXT, step.replies); }
      } else if step.CancelStep? && d.ToRelease? {
        if ReleaseRow(s, id, ReservationStatus.Cancelled, USER_CONTEXT, step.replies).Commit? {
          ReleaseWaiting(s, id, e, ReservationStatus.Cancelled, USER_CONTEXT, step.replies);
        }
      }
    }
  }

  lemma OtherStepsKeepRow(s: Store, step: Step, id: Uuid)
    requires Possible(s, step) && !TouchesByUser(step, id)
    requires id in s.reservations && !s.reservations[id].status.Pending?
    requires !WorkerTries(s, step, id)
    ensures id in Apply(s, step).reservations && Apply(s, step).reservations[id] == s.reservations[id]
  {
    if Attempt(s, step).Commit? {
      match step {
        case CreateStep(q, holds, compensation) => CreateElsewhere(s, q, holds, compensation, id);
        case ConfirmStep(_, _, _) => UserStepElsewhere(s, step, id);
        case CancelStep(_, _, _) => UserStepElsewhere(s, step, id);
        case ExpireStep(now, limit, locked, batch) =>
          DueRowsAreDue(s, now, limit, locked);
          ReleaseRowsElsewhere(s, DueRows(s, now, limit, locked), ReservationStatus.Expired, batch, id);
        case ReconcileStep(now, _, maxAttempts, baseDelay, _, rows, batch) =>
          ReconcileRowsElsewhere(s, rows, WorkerContext(now, maxAttempts, baseDelay), batch, id);
        case _ =>
      }
    }
  }

  lemma StepKeepsKinds(s: Store, step: Step, id: Uuid)
    requires Possible(s, step) && id in s.providers
    ensures id in Apply(s, step).providers && Apply(s, step).providers[id].kind == s.providers[id].kind
  {
    StepCatalogue(s, step);
  }

  lemma StepCatalogue(s: Store, step: Step)
    requires Possible(s, step)
    ensures Apply(s, step).providers == if step.ConfigureStep? then step.providers else s.providers
    ensures Apply(s, step).products == if step.ConfigureStep? then step.products else s.products
  {
    if Attempt(s, step).Commit? {
      match step {
        case CreateStep(q, holds, compensation) => CreateKeepsCatalogue(s, q, holds, compensation);
        case ExpireStep(now, limit, locked, batch) =>
          DueRowsAreDue(s, now, limit, locked);
          ReleaseRowsCatalogue(s, DueRows(s, now, limit, locked), ReservationStatus.Expired, batch);
        case ReconcileStep(now, _, maxAttempts, baseDelay, _, rows, batch) =>
          ReconcileRowsCatalogue(s, rows, WorkerContext(now, maxAttempts, baseDelay), batch);
        case _ =>
      }
    }
  }

  lemma CreateKeepsCatalogue(s: Store, q: CreateRequest, holds: nat -> Uuid -> Routing.CandidateReply, releases: nat -> Reply)
    ensures var t := Create(s, q, holds, releases).store; t.providers == s.providers && t.products == s.products
  {
    if !KeyTaken(s.reservations, q.user, q.key) && AddWithHold(s, Draft(q), holds, releases).Commit? {
      AddWithHoldAddsOneRow(s, Draft(q), holds, releases);
    }
  }

  lemma {:induction false} ReleaseRowsCatalogue(s: Store, rows: seq<Uuid>, terminal: ReservationStatus, replies: Uuid -> nat -> Reply)
    requires forall x | x in rows :: x in s.reservations
    requires ReleaseRows(s, rows, terminal, replies).Commit?
    ensures var t := ReleaseRows(s, rows, terminal, replies).value; t.providers == s.providers && t.products == s.products
    decreases |rows|
  {
    if rows != [] {
      ReleaseRowsCatalogue(ReleaseRow(s, rows[0], terminal, USER_CONTEXT, replies(rows[0])).value, rows[1..], terminal, replies);
    }
  }

  lemma {:induction false} ReconcileRowsCatalogue(s: Store, rows: seq<Uuid>, c: Context, replies: Uuid -> nat -> Reply)
    requires forall x | x in rows :: x in s.reservations
    requires ReconcileRows(s, rows, c, replies).Commit?
    ensures var t := ReconcileRows(s, rows, c, replies).value; t.providers == s.providers && t.products == s.products
    decreases |rows|
  {
    if rows != [] {
      ReconcileRowsCatalogue(ReconcileRow(s, rows[0], c, replies(rows[0])).value, rows[1..], c, replies);
    }
  }

  /** Seen from a waiting reservation, a step is either a worker attempt in a committed pass or leaves its operation alone. */
  lemma WaitingStep(s: Store, step: Step, id: Uuid, d: Direction, e: nat)
    requires Possible(s, step) && Respects(s, step) && AnswersUnknown(step, id, e)
    requires id in s.reservations && Waiting(s.providers, s.reservations[id], d, e)
    ensures var t := Apply(s, step);
            && id in t.reservations && Waiting(t.providers, t.reservations[id], d, e)
            && WaitingOperation(t.reservations[id], d, e)
               == if WorkerTries(s, step, id)
                  then NextOperation(WaitingOperation(s.reservations[id], d, e), WorkerContext(step.now, step.maxAttempts, step.baseDelay))
                  else WaitingOperation(s.reservations[id], d, e)
  {
    var r := s.reservations[id];
    StepKeepsKinds(s, step, r.allocations[e].key.provider);
    if TouchesByUser(step, id) {
      UserRetryKeepsOperation(s, step, id, d, e);
    } else if WorkerTries(s, step, id) {
      var c := WorkerContext(step.now, step.maxAttempts, step.baseDelay);
      StepCatalogue(s, step);
      ReconcileRowsWaiting(s, step.rows, c, step.batch, id, d, e);
      StillWaitingWaits(s.providers, r, d, e, NextOperation(WaitingOperation(r, d, e), c));
    } else {
      OtherStepsKeepRow(s, step, id);
    }
  }

  // ----- The schedule -----

  /** When the worker tried the reservation in committed passes, in order. */
  ghost function WorkerTimes(s: Store, steps: seq<Step>, id: Uuid): seq<int>
    requires ValidRun(s, steps)
    decreases |steps|
  {
    if steps == [] then []
    else (if WorkerTries(s, steps[0], id) then [steps[0].now] else []) + WorkerTimes(Apply(s, steps[0]), steps[1..], id)
  }

  /** Every worker in the run uses the same settings, and the provider never gives a definite answer. */
  ghost predicate SameSettings(steps: seq<Step>, id: Uuid, e: nat, max: nat, baseDelay: nat) {
    forall step | step in steps ::
      && AnswersUnknown(step, id, e)
      && (step.ReconcileStep? ==> step.maxAttempts == max && step.baseDelay == baseDelay)
  }

  lemma {:induction false} Pow2Monotonic(a: nat, b: nat)
    requires a <= b
    ensures Pow2(a) <= Pow2(b)
    decreases b - a
  {
    if a < b { Pow2Monotonic(a, b - 1); }
  }

  /** The earliest start of the attempt after `n` others. */
  function Slot(first: int, baseDelay: nat, n: nat): int {
    first + baseDelay * (Pow2(n) - 1)
  }

  /** After `n` worker attempts, the first at `first`, nothing is due before the next slot. */
  predicate Scheduled(op: Operation, start: nat, n: nat, first: int, baseDelay: nat) {
    && op.attempts == start + n
    && (n > 0 ==> op.nextAttemptAt.Some? && op.nextAttemptAt.value >= Slot(first, baseDelay, n))
  }

  /** A selected waiting reservation is due and below the cap. */
  lemma SelectedIsDue(s: Store, id: Uuid, d: Direction, e: nat, now: int, max: nat)
    requires id in s.reservations && Waiting(s.providers, s.reservations[id], d, e)
    requires Selectable(s.reservations[id], now, max)
    requires forall j | 0 <= j < |s.reservations[id].allocations| && j != e ::
               !RetryDue(OperationOf(d, s.reservations[id].allocations[j]), now, max)
    ensures RetryDue(Some(WaitingOperation(s.reservations[id], d, e)), now, max)
  {
    var r := s.reservations[id];
    if d.ToConfirm? {
      var a :| a in r.allocations && RetryDue(a.confirmOp, now, max);
      var j :| 0 <= j < |r.allocations| && r.allocations[j] == a;
      assert RetryDue(OperationOf(d, r.allocations[j]), now, max);
    } else {
      var a :| a in r.allocations && RetryDue(a.releaseOp, now, max);
      var j :| 0 <= j < |r.allocations| && r.allocations[j] == a;
      assert RetryDue(OperationOf(d, r.allocations[j]), now, max);
    }
  }

  /** Attempt number `n + 1` starts in its slot and moves the next slot twice as far. */
  lemma NextSlot(op: Operation, start: nat, n: nat, first: int, now: int, max: nat, baseDelay: nat)
    requires start >= 1 && Scheduled(op, start, n, first, baseDelay)
    requires RetryDue(Some(op), now, max) && (n == 0 ==> first == now)
    ensures start + n < max && now >= Slot(first, baseDelay, n)
    ensures Scheduled(NextOperation(op, WorkerContext(now, max, baseDelay)), start, n + 1, first, baseDelay)
  {
    var attempts := op.attempts + 1;
    var retry := if attempts > 2 then attempts - 2 else 0;
    Pow2Monotonic(n, retry);
    DelayGrows(baseDelay, Pow2(n), Pow2(retry));
    assert Pow2(n + 1) == 2 * Pow2(n);
    DelaySplits(baseDelay, Pow2(n));
  }

  lemma DelayGrows(base: nat, a: nat, b: nat)
    requires a <= b
    ensures base * a <= base * b
  {
  }

  lemma DelaySplits(base: nat, p: nat)
    ensures base * (2 * p - 1) == base * (p - 1) + base * p
    ensures p == 1 ==> base * (p - 1) == 0
  {
  }

  /** The other allocations of a consistent waiting row are finished, so only the waiting one can be due. */
  lemma OthersNeverDue(providers: Providers, r: Reservation, d: Direction, e: nat, now: int, max: nat)
    requires RowOk(providers, r) && Waiting(providers, r, d, e)
    ensures forall j | 0 <= j < |r.allocations| && j != e :: !RetryDue(OperationOf(d, r.allocations[j]), now, max)
  {
    forall j | 0 <= j < |r.allocations| && j != e ensures !RetryDue(OperationOf(d, r.allocations[j]), now, max) {
      assert r.allocations[j] in r.allocations;
    }
  }

  /** One step of the schedule. */
  lemma ScheduleStep(s: Store, step: Step, id: Uuid, d: Direction, e: nat, start: nat, n: nat, first: int, max: nat, baseDelay: nat)
    requires Consistent(s) && Possible(s, step) && Respects(s, step) && AnswersUnknown(step, id, e)
    requires step.ReconcileStep? ==> step.maxAttempts == max && step.baseDelay == baseDelay
    requires id in s.reservations && Waiting(s.providers, s.reservations[id], d, e)
    requires start >= 1 && Scheduled(WaitingOperation(s.reservations[id], d, e), start, n, first, baseDelay)
    requires WorkerTries(s, step, id) && n == 0 ==> first == step.now
    ensures var t := Apply(s, step);
            && Consistent(t) && id in t.reservations && Waiting(t.providers, t.reservations[id], d, e)
            && (if WorkerTries(s, step, id) then
                  && start + n < max && step.now >= Slot(first, baseDelay, n)
                  && Scheduled(WaitingOperation(t.reservations[id], d, e), start, n + 1, first, baseDelay)
                else Scheduled(WaitingOperation(t.reservations[id], d, e), start, n, first, baseDelay))
  {
    WaitingStep(s, step, id, d, e);
    StepConsistent(s, step);
    if WorkerTries(s, step, id) {
      OthersNeverDue(s.providers, s.reservations[id], d, e, step.now, max);
      SelectedIsDue(s, id, d, e, step.now, max);
      NextSlot(WaitingOperation(s.reservations[id], d, e), start, n, first, step.now, max, baseDelay);
    }
  }

  /** Attempt times against their slots, counting from the attempt after `n` others. */
  predicate OnSchedule(times: seq<int>, first: int, baseDelay: nat, n: nat) {
    forall j | 0 <= j < |times| :: times[j] >= Slot(first, baseDelay, n + j)
  }

  lemma OnScheduleCons(now: int, rest: seq<int>, first: int, baseDelay: nat, n: nat)
    requires now >= Slot(first, baseDelay, n) && OnSchedule(rest, first, baseDelay, n + 1)
    ensures OnSchedule([now] + rest, first, baseDelay, n)
  {
    forall j | 0 <= j < |[now] + rest| ensures ([now] + rest)[j] >= Slot(first, baseDelay, n + j) {
      if j > 0 { assert rest[j - 1] >= Slot(first, baseDelay, n + 1 + (j - 1)); }
    }
  }

  lemma RunTail(s: Store, steps: seq<Step>, id: Uuid, e: nat, max: nat, baseDelay: nat)
    requires steps != [] && LifecycleRun(s, steps) && ValidRun(s, steps) && SameSettings(steps, id, e, max, baseDelay)
    ensures Possible(s, steps[0]) && Respects(s, steps[0]) && AnswersUnknown(steps[0], id, e)
    ensures steps[0].ReconcileStep? ==> steps[0].maxAttempts == max && steps[0].baseDelay == baseDelay
    ensures LifecycleRun(Apply(s, steps[0]), steps[1..]) && ValidRun(Apply(s, steps[0]), steps[1..])
    ensures SameSettings(steps[1..], id, e, max, baseDelay)
  {
    assert steps[0] in steps;
    assert forall x | x in steps[1..] :: x in steps;
  }

  /** From a state with `n` worker attempts behind it, the first of them at `first`. */
  lemma {:induction false} ScheduleFrom(s: Store, steps: seq<Step>, id: Uuid, d: Direction, e: nat,
                                        start: nat, n: nat, first: int, max: nat, baseDelay: nat)
    requires Consistent(s) && LifecycleRun(s, steps) && ValidRun(s, steps)
    requires SameSettings(steps, id, e, max, baseDelay)
    requires id in s.reservations && Waiting(s.providers, s.reservations[id], d, e)
    requires start >= 1 && Scheduled(WaitingOperation(s.reservations[id], d, e), start, n, first, baseDelay)
    requires n > 0 || (WorkerTimes(s, steps, id) != [] ==> first == WorkerTimes(s, steps, id)[0])
    ensures OnSchedule(WorkerTimes(s, steps, id), first, baseDelay, n)
    ensures WorkerTimes(s, steps, id) != [] ==> start + n + |WorkerTimes(s, steps, id)| <= max
    decreases |steps|
  {
    hide Consistent, Waiting, Scheduled, Apply, Respects, Possible, LifecycleRun, ValidRun, SameSettings, AnswersUnknown, Slot;
    if steps != [] {
      RunTail(s, steps, id, e, max, baseDelay);
      var step := steps[0];
      var t := Apply(s, step);
      var rest := WorkerTimes(t, steps[1..], id);
      assert WorkerTimes(s, steps, id) == if WorkerTries(s, step, id) then [step.now] + rest else rest;
      hide OnSchedule, WorkerTimes, WorkerTries;
      ScheduleStep(s, step, id, d, e, start, n, first, max, baseDelay);
      if WorkerTries(s, step, id) {
        ScheduleFrom(t, steps[1..], id, d, e, start, n + 1, first, max, baseDelay);
        OnScheduleCons(step.now, rest, first, baseDelay, n);
      } else {
        ScheduleFrom(t, steps[1..], id, d, e, start, n, first, max, baseDelay);
      }
    }
  }

  /** Exponential backoff: over any lifecycle-respecting run, however the user retries in between, the j-th
      worker attempt of a waiting reservation in a committed pass starts no earlier than base * (2^(j-1) - 1) after the
      first, and there are at most max_attempts - 1 of them after the user's own first attempt. The clock need not be
      monotone. Passes that are rolled back are not bounded, see `RetriedAtOnceIff`. */
  lemma ExponentialBackoff(s: Store, steps: seq<Step>, id: Uuid, d: Direction, e: nat, max: nat, baseDelay: nat)
    requires Consistent(s) && LifecycleRun(s, steps)
    requires SameSettings(steps, id, e, max, baseDelay)
    requires id in s.reservations && Waiting(s.providers, s.reservations[id], d, e)
    requires WaitingOperation(s.reservations[id], d, e).attempts >= 1
    ensures ValidRun(s, steps)
    ensures var times := WorkerTimes(s, steps, id);
            && (forall j | 0 <= j < |times| :: times[j] >= Slot(times[0], baseDelay, j))
            && (times != [] ==> |times| <= max - WaitingOperation(s.reservations[id], d, e).attempts)
  {
    LifecycleRunIsValid(s, steps);
    var times := WorkerTimes(s, steps, id);
    var op := WaitingOperation(s.reservations[id], d, e);
    hide Consistent, LifecycleRun, ValidRun, SameSettings, Waiting, WorkerTimes, Slot;
    var first := if times == [] then 0 else times[0];
    ScheduleFrom(s, steps, id, d, e, op.attempts, 0, first, max, baseDelay);
    forall j | 0 <= j < |times| ensures times[j] >= Slot(times[0], baseDelay, j) {
      assert times[j] >= Slot(first, baseDelay, 0 + j);
    }
  }

  // ----- Exactly when the next attempt is due -----

  /** The reservation waits for allocation `e`, whose operation is `op`. */
  ghost predicate WaitsWith(s: Store, id: Uuid, d: Direction, e: nat, op: Operation) {
    && Consistent(s) && id in s.reservations && Waiting(s.providers, s.reservations[id], d, e)
    && WaitingOperation(s.reservations[id], d, e) == op
  }

  /** A waiting reservation is selected exactly when its operation is below the cap and due. */
  lemma WaitingIsSelectableIff(s: Store, id: Uuid, d: Direction, e: nat, op: Operation, now: int, max: nat)
    requires WaitsWith(s, id, d, e, op)
    ensures id in s.reservations
    ensures Selectable(s.reservations[id], now, max) <==> op.attempts < max && (op.nextAttemptAt.Some? ==> now >= op.nextAttemptAt.value)
  {
    var r := s.reservations[id];
    assert RowOk(s.providers, r);
    OthersNeverDue(s.providers, r, d, e, now, max);
    if Selectable(r, now, max) { SelectedIsDue(s, id, d, e, now, max); }
    assert r.allocations[e] in r.allocations;
  }

  lemma TriedOperation(op: Operation, now: int, max: nat, baseDelay: int)
    requires op.status.Unknown? && op.attempts < max
    ensures NextOperation(op, WorkerContext(now, max, baseDelay))
            == Operation(OperationStatus.Unknown, op.attempts + 1, Some(now + Delay(baseDelay, op.attempts + 1)))
  {
    DelayIsScheduled(WorkerContext(now, max, baseDelay), op.attempts + 1);
    hide Delay, NextAttemptAt;
  }

  lemma SelectedByTry(s: Store, step: Step, id: Uuid)
    requires Possible(s, step) && WorkerTries(s, step, id)
    ensures id in s.reservations && Selectable(s.reservations[id], step.now, step.maxAttempts)
  {
    hide Attempt;
  }

  /** One step: a worker attempt comes when the operation is due and below the cap, and moves it on; any other step leaves
      it alone. */
  lemma TriedStep(s: Store, step: Step, id: Uuid, d: Direction, e: nat, op: Operation)
    requires WaitsWith(s, id, d, e, op)
    requires Possible(s, step) && Respects(s, step) && AnswersUnknown(step, id, e)
    ensures if WorkerTries(s, step, id) then
              && op.attempts < step.maxAttempts && (op.nextAttemptAt.Some? ==> step.now >= op.nextAttemptAt.value)
              && WaitsWith(Apply(s, step), id, d, e,
                           Operation(OperationStatus.Unknown, op.attempts + 1, Some(step.now + Delay(step.baseDelay, op.attempts + 1))))
            else WaitsWith(Apply(s, step), id, d, e, op)
  {
    assert op.status.Unknown?;
    WaitingStep(s, step, id, d, e);
    StepConsistent(s, step);
    if WorkerTries(s, step, id) {
      SelectedByTry(s, step, id);
      WaitingIsSelectableIff(s, id, d, e, op, step.now, step.maxAttempts);
      TriedOperation(op, step.now, step.maxAttempts, step.baseDelay);
    }
    hide Consistent, Waiting, Respects, AnswersUnknown, Possible, WorkerTries, Apply, Delay, NextOperation, Selectable;
  }

  /** After a committed attempt whose answer is unknown again, the reservation is due exactly from `delay` on, unless its
      attempts are used up. The delay is the base delay for the worker's first attempt after one of the user. */
  lemma DueAgain(s: Store, step: Step, id: Uuid, d: Direction, e: nat, op: Operation) returns (delay: int)
    requires WaitsWith(s, id, d, e, op)
    requires Possible(s, step) && AnswersUnknown(step, id, e) && WorkerTries(s, step, id)
    ensures delay == Delay(step.baseDelay, op.attempts + 1)
    ensures op.attempts <= 1 ==> delay == step.baseDelay
    ensures id in Apply(s, step).reservations
    ensures forall later :: Selectable(Apply(s, step).reservations[id], later, step.maxAttempts)
                            <==> op.attempts + 1 < step.maxAttempts && later >= step.now + delay
  {
    hide WaitsWith, Apply, Attempt, Possible, Selectable, AnswersUnknown;
    delay := Delay(step.baseDelay, op.attempts + 1);
    assert Respects(s, step);
    TriedStep(s, step, id, d, e, op);
    var t := Apply(s, step);
    var next := Operation(OperationStatus.Unknown, op.attempts + 1, Some(step.now + delay));
    WaitingIsSelectableIff(t, id, d, e, next, step.now, step.maxAttempts);
    forall later
      ensures Selectable(t.reservations[id], later, step.maxAttempts) <==> op.attempts + 1 < step.maxAttempts && later >= step.now + delay
    {
      WaitingIsSelectableIff(t, id, d, e, next, later, step.maxAttempts);
    }
  }

  lemma DueFrom(r: Reservation, max: nat, a: int, b: int)
    requires forall later :: Selectable(r, later, max) <==> later >= a
    requires forall later :: Selectable(r, later, max) <==> later >= b
    ensures a == b
  {
    hide Selectable;
    assert Selectable(r, a, max) && Selectable(r, b, max);
  }

  /** A worker attempt in a committed pass that leaves the reservation due again after `delay`. */
  ghost predicate DelayedBy(s: Store, step: Step, id: Uuid, d: Direction, e: nat, op: Operation, delay: int) {
    && WaitsWith(s, id, d, e, op) && Possible(s, step) && AnswersUnknown(step, id, e) && WorkerTries(s, step, id)
    && op.attempts + 1 < step.maxAttempts
    && id in Apply(s, step).reservations
    && forall later :: Selectable(Apply(s, step).reservations[id], later, step.maxAttempts) <==> later >= step.now + delay
  }

  lemma DelayIsExact(s: Store, step: Step, id: Uuid, d: Direction, e: nat, op: Operation, delay: int)
    requires DelayedBy(s, step, id, d, e, op, delay)
    ensures delay == Delay(step.baseDelay, op.attempts + 1)
  {
    var exact := DueAgain(s, step, id, d, e, op);
    hide WaitsWith, Apply, Attempt, Possible, WorkerTries, Selectable, AnswersUnknown, Delay;
    DueFrom(Apply(s, step).reservations[id], step.maxAttempts, step.now + delay, step.now + exact);
  }

  /** The law of the delays, for any two worker attempts at whatever reservations in whatever stores: with one user attempt
      behind it the delay is the base delay, and with one attempt more than another it is exactly twice the other's. */
  lemma DelaysDouble(s: Store, step: Step, id: Uuid, op: Operation, delay: int,
                     s2: Store, step2: Step, id2: Uuid, op2: Operation, delay2: int, d: Direction, e: nat)
    requires DelayedBy(s, step, id, d, e, op, delay) && DelayedBy(s2, step2, id2, d, e, op2, delay2)
    requires step2.baseDelay == step.baseDelay && op2.attempts == op.attempts + 1
    ensures op.attempts <= 1 ==> delay == step.baseDelay
    ensures op.attempts >= 1 ==> delay2 == 2 * delay
  {
    DelayIsExact(s, step, id, d, e, op, delay);
    DelayIsExact(s2, step2, id2, d, e, op2, delay2);
    hide DelayedBy;
  }

  /** Attempt times against an operation with `attempts` behind it that is due from `due` on. */
  predicate Spaced(times: seq<int>, attempts: nat, due: Option<int>, baseDelay: nat) {
    && (times != [] && due.Some? ==> times[0] >= due.value)
    && forall j | 0 < j < |times| :: times[j] >= times[j - 1] + Delay(baseDelay, attempts + j)
  }

  lemma SpacedCons(now: int, rest: seq<int>, attempts: nat, due: Option<int>, baseDelay: nat)
    requires due.Some? ==> now >= due.value
    requires Spaced(rest, attempts + 1, Some(now + Delay(baseDelay, attempts + 1)), baseDelay)
    ensures Spaced([now] + rest, attempts, due, baseDelay)
  {
    hide Delay;
    var times := [now] + rest;
    forall j | 0 < j < |times| ensures times[j] >= times[j - 1] + Delay(baseDelay, attempts + j) {
      if j > 1 { assert rest[j - 1] >= rest[j - 2] + Delay(baseDelay, attempts + 1 + (j - 1)); }
    }
  }

  /** The operation after the worker attempts at `times`, all of them unknown. */
  function Tried(op: Operation, times: seq<int>, baseDelay: nat): Operation {
    if times == [] then op
    else Operation(OperationStatus.Unknown, op.attempts + |times|, Some(times[|times| - 1] + Delay(baseDelay, op.attempts + |times|)))
  }

  lemma TriedCons(op: Operation, now: int, rest: seq<int>, baseDelay: nat)
    ensures var next := Operation(OperationStatus.Unknown, op.attempts + 1, Some(now + Delay(baseDelay, op.attempts + 1)));
            Tried(next, rest, baseDelay) == Tried(op, [now] + rest, baseDelay)
  {
    hide Delay;
  }

  lemma RunCons(s: Store, steps: seq<Step>, id: Uuid)
    requires ValidRun(s, steps) && steps != []
    ensures var t := Apply(s, steps[0]);
            && ValidRun(t, steps[1..]) && Run(s, steps) == Run(t, steps[1..])
            && WorkerTimes(s, steps, id) == (if WorkerTries(s, steps[0], id) then [steps[0].now] else []) + WorkerTimes(t, steps[1..], id)
  {
    hide Apply, Possible, WorkerTries;
  }

  lemma {:induction false} TriedOverRun(s: Store, steps: seq<Step>, id: Uuid, d: Direction, e: nat, op: Operation, max: nat, baseDelay: nat)
    requires WaitsWith(s, id, d, e, op)
    requires LifecycleRun(s, steps) && ValidRun(s, steps) && SameSettings(steps, id, e, max, baseDelay)
    ensures Spaced(WorkerTimes(s, steps, id), op.attempts, op.nextAttemptAt, baseDelay)
    ensures WaitsWith(Run(s, steps), id, d, e, Tried(op, WorkerTimes(s, steps, id), baseDelay))
    decreases |steps|
  {
    hide WaitsWith, Apply, Attempt, Respects, Possible, LifecycleRun, ValidRun, SameSettings, AnswersUnknown, Delay, Tried, Spaced, Run,
         WorkerTimes, WorkerTries;
    if steps == [] {
      NothingTried(s, id, op, baseDelay);
    } else {
      RunTail(s, steps, id, e, max, baseDelay);
      RunCons(s, steps, id);
      var step, t := steps[0], Apply(s, steps[0]);
      var rest := WorkerTimes(t, steps[1..], id);
      TriedStep(s, step, id, d, e, op);
      if WorkerTries(s, step, id) {
        TriedByReconciling(s, step, id);
        var next := Operation(OperationStatus.Unknown, op.attempts + 1, Some(step.now + Delay(baseDelay, op.attempts + 1)));
        TriedOverRun(t, steps[1..], id, d, e, next, max, baseDelay);
        SpacedCons(step.now, rest, op.attempts, op.nextAttemptAt, baseDelay);
        TriedCons(op, step.now, rest, baseDelay);
      } else {
        TriedOverRun(t, steps[1..], id, d, e, op, max, baseDelay);
        assert [] + rest == rest;
      }
    }
  }

  lemma NothingTried(s: Store, id: Uuid, op: Operation, baseDelay: nat)
    ensures ValidRun(s, []) && Run(s, []) == s && WorkerTimes(s, [], id) == []
    ensures Spaced([], op.attempts, op.nextAttemptAt, baseDelay) && Tried(op, [], baseDelay) == op
  {
    hide Apply, Possible, WorkerTries;
  }

  lemma TriedByReconciling(s: Store, step: Step, id: Uuid)
    requires Possible(s, step) && WorkerTries(s, step, id)
    ensures step.ReconcileStep?
  {
    hide Attempt, Possible;
  }

  /** The delays of so many worker attempts after so many others. */
  function Delays(baseDelay: nat, attempts: nat, n: nat): seq<int> {
    seq(n, j requires 0 <= j < n => Delay(baseDelay, attempts + 1 + j))
  }

  lemma EachDelayDoubles(baseDelay: nat, attempts: nat, n: nat)
    requires attempts >= 1
    ensures var delays := Delays(baseDelay, attempts, n);
            && |delays| == n
            && (attempts == 1 && n > 0 ==> delays[0] == baseDelay)
            && (forall j | 0 < j < n :: delays[j] == 2 * delays[j - 1])
  {
    if n > 0 { assert Delays(baseDelay, attempts, n)[0] == Delay(baseDelay, attempts + 1 + 0); }
    forall j | 0 < j < n ensures Delays(baseDelay, attempts, n)[j] == 2 * Delays(baseDelay, attempts, n)[j - 1] {
      assert Delay(baseDelay, attempts + 1 + j) == 2 * Delay(baseDelay, attempts + 1 + j - 1);
    }
  }

  lemma SpacedByDelays(times: seq<int>, attempts: nat, due: Option<int>, baseDelay: nat)
    requires Spaced(times, attempts, due, baseDelay)
    ensures forall j | 0 < j < |times| :: times[j] >= times[j - 1] + Delays(baseDelay, attempts, |times|)[j - 1]
  {
    hide Delay;
    forall j | 0 < j < |times| ensures times[j] >= times[j - 1] + Delays(baseDelay, attempts, |times|)[j - 1] {
      assert attempts + 1 + (j - 1) == attempts + j;
    }
  }

  lemma DueAfterTries(t: Store, id: Uuid, d: Direction, e: nat, op: Operation, times: seq<int>, max: nat, baseDelay: nat)
    requires WaitsWith(t, id, d, e, Tried(op, times, baseDelay))
    ensures id in t.reservations
    ensures times != [] ==>
              forall later :: Selectable(t.reservations[id], later, max)
                              <==> op.attempts + |times| < max
                                   && later >= times[|times| - 1] + Delays(baseDelay, op.attempts, |times|)[|times| - 1]
  {
    hide WaitsWith, Selectable, Delay;
    var last := Tried(op, times, baseDelay);
    WaitingIsSelectableIff(t, id, d, e, last, 0, max);
    if times != [] {
      assert op.attempts + 1 + (|times| - 1) == op.attempts + |times|;
      forall later
        ensures Selectable(t.reservations[id], later, max)
                <==> op.attempts + |times| < max && later >= times[|times| - 1] + Delays(baseDelay, op.attempts, |times|)[|times| - 1]
      {
        WaitingIsSelectableIff(t, id, d, e, last, later, max);
      }
    }
  }

  /** Exponential backoff, exactly: over any lifecycle-respecting run the worker attempts in committed passes have delays
      of which each is twice the one before, and the first is the base delay if the user had tried once. No attempt starts
      before the delay after the last one is over; and at the end the reservation is due from that very instant on, unless
      its attempts are used up. */
  lemma ExactBackoff(s: Store, steps: seq<Step>, id: Uuid, d: Direction, e: nat, op: Operation, max: nat, baseDelay: nat) returns (delays: seq<int>)
    requires WaitsWith(s, id, d, e, op) && op.attempts >= 1
    requires LifecycleRun(s, steps) && SameSettings(steps, id, e, max, baseDelay)
    ensures ValidRun(s, steps)
    ensures var times, t := WorkerTimes(s, steps, id), Run(s, steps);
            && |delays| == |times|
            && (op.attempts == 1 && delays != [] ==> delays[0] == baseDelay)
            && (forall j | 0 < j < |delays| :: delays[j] == 2 * delays[j - 1])
            && (forall j | 0 < j < |times| :: times[j] >= times[j - 1] + delays[j - 1])
            && id in t.reservations
            && (times != [] ==> forall later :: Selectable(t.reservations[id], later, max)
                                                <==> op.attempts + |times| < max && later >= times[|times| - 1] + delays[|times| - 1])
  {
    hide WaitsWith, Apply, Attempt, Respects, Possible, LifecycleRun, ValidRun, SameSettings, AnswersUnknown, Delay, Tried, Spaced, Run,
         WorkerTimes, WorkerTries, Selectable, Delays;
    LifecycleRunIsValid(s, steps);
    TriedOverRun(s, steps, id, d, e, op, max, baseDelay);
    var times := WorkerTimes(s, steps, id);
    delays := Delays(baseDelay, op.attempts, |times|);
    EachDelayDoubles(baseDelay, op.attempts, |times|);
    SpacedByDelays(times, op.attempts, op.nextAttemptAt, baseDelay);
    DueAfterTries(Run(s, steps), id, d, e, op, times, max, baseDelay);
  }

  // ----- Passes that are rolled back -----

  /** After a pass that took the reservation, the worker may take it again at the same instant exactly when the pass
      was rolled back: what it had called is forgotten, attempt count and schedule included. */
  lemma RetriedAtOnceIff(s: Store, step: Step, id: Uuid)
    requires Consistent(s) && Possible(s, step) && step.ReconcileStep? && id in step.rows
    ensures var t := Apply(s, step);
            id in t.reservations && (Selectable(t.reservations[id], step.now, step.maxAttempts) <==> Attempt(s, step).Raise?)
  {
    forall x | x in step.rows ensures x in Reconciliation.SelectableIds(s, step.now, step.maxAttempts) {
      Reconciliation.SelectableMember(s, step.now, step.maxAttempts, x);
    }
    hide Selectable, Consistent, ReconcileRows;
    var c := WorkerContext(step.now, step.maxAttempts, step.baseDelay);
    if Attempt(s, step).Commit? {
      var t := ReconcileRows(s, step.rows, c, step.batch).value;
      Reconciliation.BatchIsDone(s, step.rows, step.now, step.maxAttempts, step.baseDelay, step.batch);
      ReconcileRowsKeys(s, step.rows, c, step.batch);
      Reconciliation.SelectableMember(t, step.now, step.maxAttempts, id);
      assert id in Expiry.Members(step.rows);
    }
  }

  /** So a raised pass can be repeated any number of times at one instant, and counts as no attempt at all. */
  lemma {:induction false} RaisedPassesRepeat(s: Store, step: Step, id: Uuid, n: nat)
    requires Possible(s, step) && Respects(s, step) && Attempt(s, step).Raise?
    ensures var steps := seq(n, _ => step);
            && LifecycleRun(s, steps) && ValidRun(s, steps) && Run(s, steps) == s
            && WorkerTimes(s, steps, id) == []
    decreases n
  {
    hide Attempt, Possible, Respects;
    if n > 0 {
      var steps := seq(n, _ => step);
      assert steps[0] == step && steps[1..] == seq(n - 1, _ => step);
      RaisedPassesRepeat(s, step, id, n - 1);
    }
  }

  /** Such a pass may have called the waiting provider: beside a reservation whose own provider has lost support, each
      pass makes the call, one more attempt, and is then rolled back. */
  lemma RolledBackPassCalls(s: Store, step: Step, id: Uuid, other: Uuid, d: Direction, e: nat)
    requires Live(s) && Possible(s, step) && step.ReconcileStep? && step.rows == [id, other]
    requires id in s.reservations && Waiting(s.providers, s.reservations[id], d, e) && step.batch(id)(e).Unknown?
    requires !Batches.Unserved(d, s.providers, s.reservations[id].allocations[e])
    requires other in s.reservations
             && Batches.SomeUnserved(if s.reservations[other].status.Releasing? then ToRelease else ToConfirm, s.providers, s.reservations[other])
    ensures Attempt(s, step).Raise? && Apply(s, step) == s
    ensures var c := WorkerContext(step.now, step.maxAttempts, step.baseDelay);
            var x := ReconcileRow(s, id, c, step.batch(id));
            && x.Commit? && id in x.value.reservations
            && OperationOf(d, s.reservations[id].allocations[e]).Some?
            && e < |x.value.reservations[id].allocations| && OperationOf(d, x.value.reservations[id].allocations[e]).Some?
            && OperationOf(d, x.value.reservations[id].allocations[e]).value.attempts
               == OperationOf(d, s.reservations[id].allocations[e]).value.attempts + 1
  {
    Batches.UnservedRowBlocksBatch(s, step, other);
    var r := s.reservations[id];
    var c := WorkerContext(step.now, step.maxAttempts, step.baseDelay);
    assert id in step.rows && RowOk(s.providers, r);
    OthersNeverDue(s.providers, r, d, e, step.now, step.maxAttempts);
    SelectedIsDue(s, id, d, e, step.now, step.maxAttempts);
    WaitingRowSettles(s, id, d, e, c, step.batch(id));
    ReconcileWaiting(s, id, d, e, c, step.batch(id));
    StillWaitingWaits(s.providers, r, d, e, NextOperation(WaitingOperation(r, d, e), c));
  }

  lemma WaitingRowSettles(s: Store, id: Uuid, d: Direction, e: nat, c: Context, replies: nat -> Reply)
    requires id in s.reservations && Waiting(s.providers, s.reservations[id], d, e) && replies(e).Unknown?
    requires !Batches.Unserved(d, s.providers, s.reservations[id].allocations[e])
    ensures ReconcileRow(s, id, c, replies).Commit?
  {
    WaitingSettlement(d, c, s.providers, Books(s.offers, s.reservations[id].allocations), 0, e, replies);
  }
}
