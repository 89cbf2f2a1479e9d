/** Bounded retries: the reconciliation worker terminates, spends a budget and backs off exponentially. */
module Reconciliation {
  import opened Types
  import opened Ledger
  import opened Settlement
  import opened Transactions
  import opened Consistency
  import Routing
  import Expiry

  // ----- A processed reservation is not selected again at the same time -----

  lemma SettledIsNotDue(d: Direction, now: int, maxAttempts: nat, baseDelay: nat, providers: Providers, a: Allocation, reply: Reply, b: Allocation)
    requires baseDelay > 0 && AllocationOk(providers, a)
    requires SettledTo(d, WorkerContext(now, maxAttempts, baseDelay), ProviderRow(providers, a.key.provider), a, reply, b)
    ensures !RetryDue(OperationOf(d, b), now, maxAttempts)
  {
    var attempts := AttemptCount(OperationOf(d, a));
    DelayPositive(baseDelay, Pow2(if attempts > 2 then attempts - 2 else 0));
  }

  lemma DelayPositive(a: nat, b: nat)
    requires a > 0 && b > 0
    ensures a * b > 0
  {
  }

  lemma NothingDueAfterSettling(d: Direction, now: int, maxAttempts: nat, baseDelay: nat, s: Store, id: Uuid, replies: nat -> Reply)
    requires baseDelay > 0 && Consistent(s) && id in s.reservations
    requires SettleFrom(d, WorkerContext(now, maxAttempts, baseDelay), s.providers, Books(s.offers, s.reservations[id].allocations), 0, replies).Commit?
    ensures var t := SettleFrom(d, WorkerContext(now, maxAttempts, baseDelay), s.providers, Books(s.offers, s.reservations[id].allocations), 0, replies).value;
            forall a | a in t.allocations :: !RetryDue(OperationOf(d, a), now, maxAttempts)
  {
    var c := WorkerContext(now, maxAttempts, baseDelay);
    var b := Books(s.offers, s.reservations[id].allocations);
    SettleFromPointwise(d, c, s.providers, b, 0, replies);
    var t := SettleFrom(d, c, s.providers, b, 0, replies).value;
    assert RowOk(s.providers, s.reservations[id]);
    forall j | 0 <= j < |t.allocations| ensures !RetryDue(OperationOf(d, t.allocations[j]), now, maxAttempts) {
      assert b.allocations[j] in b.allocations;
      SettledIsNotDue(d, now, maxAttempts, baseDelay, s.providers, b.allocations[j], replies(j), t.allocations[j]);
    }
  }

  lemma ProcessedIsNotSelectable(s: Store, id: Uuid, now: int, maxAttempts: nat, baseDelay: nat, replies: nat -> Reply)
    requires baseDelay > 0 && Consistent(s) && id in s.reservations && Selectable(s.reservations[id], now, maxAttempts)
    requires ReconcileRow(s, id, WorkerContext(now, maxAttempts, baseDelay), replies).Commit?
    ensures var t := ReconcileRow(s, id, WorkerContext(now, maxAttempts, baseDelay), replies).value;
            && t.reservations.Keys == s.reservations.Keys
            && (forall x | x in s.reservations && x != id :: t.reservations[x] == s.reservations[x])
            && !Selectable(t.reservations[id], now, maxAttempts)
  {
    hide SettleFrom, Consistent, RetryDue;
    assert forall a :: OperationOf(ToRelease, a) == a.releaseOp && OperationOf(ToConfirm, a) == a.confirmOp;
    var d := if s.reservations[id].status.Releasing? then ToRelease else ToConfirm;
    NothingDueAfterSettling(d, now, maxAttempts, baseDelay, s, id, replies);
  }

  // ----- A drain at a fixed clock ends -----

  function SelectableIds(s: Store, now: int, maxAttempts: nat): set<Uuid> {
    set id | id in s.reservations && Selectable(s.reservations[id], now, maxAttempts)
  }

  lemma SelectableMember(s: Store, now: int, maxAttempts: nat, id: Uuid)
    ensures id in SelectableIds(s, now, maxAttempts) <==> id in s.reservations && Selectable(s.reservations[id], now, maxAttempts)
  {
  }

  /** One row processed: it leaves the queue of this clock reading, alone. */
  ghost predicate RowDone(s: Store, t: Store, id: Uuid, now: int, max: nat) {
    && Consistent(t) && t.reservations.Keys == s.reservations.Keys
    && SelectableIds(t, now, max) == SelectableIds(s, now, max) - {id}
    && Budget(t, max) < Budget(s, max)
  }

  lemma RowLeavesQueue(s: Store, id: Uuid, now: int, maxAttempts: nat, baseDelay: nat, replies: nat -> Reply)
    requires baseDelay > 0 && Consistent(s) && id in s.reservations && Selectable(s.reservations[id], now, maxAttempts)
    requires ReconcileRow(s, id, WorkerContext(now, maxAttempts, baseDelay), replies).Commit?
    ensures var t := ReconcileRow(s, id, WorkerContext(now, maxAttempts, baseDelay), replies).value;
            SelectableIds(t, now, maxAttempts) == SelectableIds(s, now, maxAttempts) - {id} && t.reservations.Keys == s.reservations.Keys
  {
    ProcessedIsNotSelectable(s, id, now, maxAttempts, baseDelay, replies);
  }

  lemma RowIsDone(s: Store, id: Uuid, now: int, max: nat, baseDelay: nat, replies: nat -> Reply)
    requires baseDelay > 0 && Consistent(s) && id in s.reservations && Selectable(s.reservations[id], now, max)
    requires ReconcileRow(s, id, WorkerContext(now, max, baseDelay), replies).Commit?
    ensures RowDone(s, ReconcileRow(s, id, WorkerContext(now, max, baseDelay), replies).value, id, now, max)
  {
    RowLeavesQueue(s, id, now, max, baseDelay, replies);
    ReconcileRowConsistent(s, id, WorkerContext(now, max, baseDelay), replies);
    ReconcileSpends(s, id, now, max, baseDelay, replies);
  }

  /** A whole batch processed. */
  ghost predicate BatchDone(s: Store, t: Store, rows: seq<Uuid>, now: int, max: nat) {
    && Consistent(t)
    && SelectableIds(t, now, max) == SelectableIds(s, now, max) - Expiry.Members(rows)
    && Budget(t, max) + |rows| <= Budget(s, max)
  }

  lemma BatchDoneCons(s: Store, t: Store, u: Store, rows: seq<Uuid>, now: int, max: nat)
    requires rows != [] && RowDone(s, t, rows[0], now, max) && BatchDone(t, u, rows[1..], now, max)
    ensures BatchDone(s, u, rows, now, max)
  {
    assert Expiry.Members(rows) == {rows[0]} + Expiry.Members(rows[1..]);
  }

  lemma ReconcileRowsFirst(s: Store, rows: seq<Uuid>, c: Context, replies: Uuid -> nat -> Reply)
    requires rows != [] && forall id | id in rows :: id in s.reservations
    requires ReconcileRows(s, rows, c, replies).Commit?
    ensures var x := ReconcileRow(s, rows[0], c, replies(rows[0]));
            x.Commit? && ((forall id | id in rows[1..] :: id in x.value.reservations)
              ==> ReconcileRows(s, rows, c, replies) == ReconcileRows(x.value, rows[1..], c, replies))
  {
  }

  lemma {:induction false} BatchIsDone(s: Store, rows: seq<Uuid>, now: int, maxAttempts: nat, baseDelay: nat, replies: Uuid -> nat -> Reply)
    requires baseDelay > 0 && Consistent(s) && Routing.Distinct(rows)
    requires forall id | id in rows :: id in s.reservations && id in SelectableIds(s, now, maxAttempts)
    requires ReconcileRows(s, rows, WorkerContext(now, maxAttempts, baseDelay), replies).Commit?
    ensures BatchDone(s, ReconcileRows(s, rows, WorkerContext(now, maxAttempts, baseDelay), replies).value, rows, now, maxAttempts)
    decreases |rows|
  {
    hide Consistent, Budget, SelectableIds, Selectable, ReconcileRow;
    if rows != [] {
      var id := rows[0];
      assert id in rows;
      SelectableMember(s, now, maxAttempts, id);
      ReconcileRowsFirst(s, rows, WorkerContext(now, maxAttempts, baseDelay), replies);
      RowIsDone(s, id, now, maxAttempts, baseDelay, replies(id));
      var t := ReconcileRow(s, id, WorkerContext(now, maxAttempts, baseDelay), replies(id)).value;
      assert forall x | x in rows[1..] :: x in rows && x != id;
      BatchIsDone(t, rows[1..], now, maxAttempts, baseDelay, replies);
      BatchDoneCons(s, t, ReconcileRows(t, rows[1..], WorkerContext(now, maxAttempts, baseDelay), replies).value, rows, now, maxAttempts);
    }
  }

  /** One worker pass: the rows its query skipped because they were locked, those it returned, and the replies. */
  datatype Pass = Pass(locked: set<Uuid>, rows: seq<Uuid>, replies: Uuid -> nat -> Reply)

  /** The passes of a drain at one clock reading: each commits and each is full. */
  ghost predicate FullPasses(s: Store, now: int, limit: nat, maxAttempts: nat, baseDelay: nat, passes: seq<Pass>)
    decreases |passes|
  {
    passes == [] ||
    (var p := passes[0];
     && SelectedRows(s, now, limit, maxAttempts, p.locked, p.rows) && |p.rows| == limit
     && ReconcileRows(s, p.rows, WorkerContext(now, maxAttempts, baseDelay), p.replies).Commit?
     && FullPasses(ReconcileRows(s, p.rows, WorkerContext(now, maxAttempts, baseDelay), p.replies).value,
                   now, limit, maxAttempts, baseDelay, passes[1..]))
  }

  /** A committed pass takes exactly its rows off the queue. */
  lemma PassShrinksQueue(s: Store, now: int, limit: nat, maxAttempts: nat, baseDelay: nat, p: Pass)
    requires baseDelay > 0 && Consistent(s)
    requires SelectedRows(s, now, limit, maxAttempts, p.locked, p.rows)
    requires ReconcileRows(s, p.rows, WorkerContext(now, maxAttempts, baseDelay), p.replies).Commit?
    ensures var t := ReconcileRows(s, p.rows, WorkerContext(now, maxAttempts, baseDelay), p.replies).value;
            && Consistent(t)
            && SelectableIds(t, now, maxAttempts) == SelectableIds(s, now, maxAttempts) - Expiry.Members(p.rows)
            && |SelectableIds(t, now, maxAttempts)| == |SelectableIds(s, now, maxAttempts)| - |p.rows|
  {
    forall id | id in p.rows ensures id in SelectableIds(s, now, maxAttempts) { SelectableMember(s, now, maxAttempts, id); }
    BatchIsDone(s, p.rows, now, maxAttempts, baseDelay, p.replies);
    Expiry.MembersCount(p.rows);
    Expiry.SubsetCount(SelectableIds(s, now, maxAttempts), Expiry.Members(p.rows));
  }

  lemma OneMore(n: nat, limit: nat)
    requires n > 0
    ensures n * limit == (n - 1) * limit + limit
  {
  }

  /** A drain that keeps coming back full runs out of work: its full passes process disjoint reservations. */
  lemma {:induction false} DrainEnds(s: Store, now: int, limit: nat, maxAttempts: nat, baseDelay: nat, passes: seq<Pass>)
    requires baseDelay > 0 && Consistent(s)
    requires FullPasses(s, now, limit, maxAttempts, baseDelay, passes)
    ensures |passes| * limit <= |SelectableIds(s, now, maxAttempts)|
    decreases |passes|
  {
    if passes != [] {
      hide ReconcileRows, Consistent, SelectableIds, SelectedRows;
      PassShrinksQueue(s, now, limit, maxAttempts, baseDelay, passes[0]);
      var t := ReconcileRows(s, passes[0].rows, WorkerContext(now, maxAttempts, baseDelay), passes[0].replies).value;
      DrainEnds(t, now, limit, maxAttempts, baseDelay, passes[1..]);
      OneMore(|passes|, limit);
    }
  }

  /** A short committed pass leaves nothing selectable at that clock reading but rows that were locked. */
  lemma ShortPassFinishes(s: Store, now: int, limit: nat, maxAttempts: nat, baseDelay: nat, p: Pass)
    requires baseDelay > 0 && Consistent(s)
    requires SelectedRows(s, now, limit, maxAttempts, p.locked, p.rows) && |p.rows| < limit
    requires ReconcileRows(s, p.rows, WorkerContext(now, maxAttempts, baseDelay), p.replies).Commit?
    ensures SelectableIds(ReconcileRows(s, p.rows, WorkerContext(now, maxAttempts, baseDelay), p.replies).value, now, maxAttempts) <= p.locked
  {
    PassShrinksQueue(s, now, limit, maxAttempts, baseDelay, p);
    forall id | id in SelectableIds(s, now, maxAttempts) && id !in p.locked ensures id in Expiry.Members(p.rows) {
      SelectableMember(s, now, maxAttempts, id);
    }
  }

  // ----- The retry budget -----

  lemma {:induction false} WeightsCompare(g: Gauge, s: seq<Allocation>, t: seq<Allocation>)
    requires |t| == |s|
    requires forall i | 0 <= i < |s| :: AllocationWeight(g, t[i]) <= AllocationWeight(g, s[i])
    ensures AllocationsWeight(g, t) <= AllocationsWeight(g, s)
    ensures (exists i | 0 <= i < |s| :: AllocationWeight(g, t[i]) < AllocationWeight(g, s[i]))
            ==> AllocationsWeight(g, t) < AllocationsWeight(g, s)
  {
    if s != [] {
      assert forall i | 0 <= i < |s| - 1 :: s[1..][i] == s[i + 1] && t[1..][i] == t[i + 1];
      WeightsCompare(g, s[1..], t[1..]);
      if i :| 0 <= i < |s| && AllocationWeight(g, t[i]) < AllocationWeight(g, s[i]) {
        if i > 0 { assert AllocationWeight(g, t[1..][i - 1]) < AllocationWeight(g, s[1..][i - 1]); }
      }
    }
  }

  lemma SettlingSpends(d: Direction, c: Context, p: Provider, a: Allocation, reply: Reply, b: Allocation, max: nat)
    requires SettledTo(d, c, p, a, reply, b)
    ensures AllocationWeight(AttemptsLeft(max), b) <= AllocationWeight(AttemptsLeft(max), a)
  {
  }

  lemma RetryingSpends(d: Direction, now: int, max: nat, baseDelay: nat, providers: Providers, a: Allocation, reply: Reply, b: Allocation)
    requires AllocationOk(providers, a) && RetryDue(OperationOf(d, a), now, max)
    requires SettledTo(d, WorkerContext(now, max, baseDelay), ProviderRow(providers, a.key.provider), a, reply, b)
    ensures AllocationWeight(AttemptsLeft(max), b) < AllocationWeight(AttemptsLeft(max), a)
  {
  }

  lemma SettlementSpends(d: Direction, c: Context, s: Store, id: Uuid, replies: nat -> Reply, max: nat)
    requires id in s.reservations
    requires SettleFrom(d, c, s.providers, Books(s.offers, s.reservations[id].allocations), 0, replies).Commit?
    ensures var t := SettleFrom(d, c, s.providers, Books(s.offers, s.reservations[id].allocations), 0, replies).value;
            AllocationsWeight(AttemptsLeft(max), t.allocations) <= AllocationsWeight(AttemptsLeft(max), s.reservations[id].allocations)
  {
    var b := Books(s.offers, s.reservations[id].allocations);
    SettleFromPointwise(d, c, s.providers, b, 0, replies);
    var t := SettleFrom(d, c, s.providers, b, 0, replies).value;
    forall j | 0 <= j < |t.allocations|
      ensures AllocationWeight(AttemptsLeft(max), t.allocations[j]) <= AllocationWeight(AttemptsLeft(max), b.allocations[j])
    {
      SettlingSpends(d, c, ProviderRow(s.providers, b.allocations[j].key.provider), b.allocations[j], replies(j), t.allocations[j], max);
    }
    WeightsCompare(AttemptsLeft(max), b.allocations, t.allocations);
  }

  lemma RetriedSettlementSpends(d: Direction, now: int, max: nat, baseDelay: nat, s: Store, id: Uuid, replies: nat -> Reply)
    requires Consistent(s) && id in s.reservations
    requires exists a | a in s.reservations[id].allocations :: RetryDue(OperationOf(d, a), now, max)
    requires SettleFrom(d, WorkerContext(now, max, baseDelay), s.providers, Books(s.offers, s.reservations[id].allocations), 0, replies).Commit?
    ensures var t := SettleFrom(d, WorkerContext(now, max, baseDelay), s.providers, Books(s.offers, s.reservations[id].allocations), 0, replies).value;
            AllocationsWeight(AttemptsLeft(max), t.allocations) < AllocationsWeight(AttemptsLeft(max), s.reservations[id].allocations)
  {
    var c := WorkerContext(now, max, baseDelay);
    var b := Books(s.offers, s.reservations[id].allocations);
    SettleFromPointwise(d, c, s.providers, b, 0, replies);
    var t := SettleFrom(d, c, s.providers, b, 0, replies).value;
    assert RowOk(s.providers, s.reservations[id]);
    forall j | 0 <= j < |t.allocations|
      ensures AllocationWeight(AttemptsLeft(max), t.allocations[j]) <= AllocationWeight(AttemptsLeft(max), b.allocations[j])
    {
      SettlingSpends(d, c, ProviderRow(s.providers, b.allocations[j].key.provider), b.allocations[j], replies(j), t.allocations[j], max);
    }
    var j :| 0 <= j < |b.allocations| && RetryDue(OperationOf(d, b.allocations[j]), now, max);
    assert b.allocations[j] in b.allocations;
    RetryingSpends(d, now, max, baseDelay, s.providers, b.allocations[j], replies(j), t.allocations[j]);
    WeightsCompare(AttemptsLeft(max), b.allocations, t.allocations);
  }

  ghost function Budget(s: Store, max: nat): int {
    Total(AttemptsLeft(max), s.reservations)
  }

  lemma ReleaseSpends(s: Store, id: Uuid, terminal: ReservationStatus, c: Context, replies: nat -> Reply, max: nat)
    requires id in s.reservations && ReleaseRow(s, id, terminal, c, replies).Commit?
    ensures Budget(ReleaseRow(s, id, terminal, c, replies).value, max) <= Budget(s, max)
  {
    SettlementSpends(ToRelease, c, s, id, replies, max);
    TotalUpdate(AttemptsLeft(max), s.reservations, id, ReleaseRow(s, id, terminal, c, replies).value.reservations[id]);
  }

  lemma WaitsInDirection(r: Reservation, now: int, max: nat) returns (d: Direction)
    requires Selectable(r, now, max)
    ensures d == if r.status.Releasing? then ToRelease else ToConfirm
    ensures exists a | a in r.allocations :: RetryDue(OperationOf(d, a), now, max)
  {
    if r.status.Releasing? {
      d := ToRelease;
      var a :| a in r.allocations && RetryDue(a.releaseOp, now, max);
      assert RetryDue(OperationOf(d, a), now, max);
    } else {
      d := ToConfirm;
      var a :| a in r.allocations && RetryDue(a.confirmOp, now, max);
      assert RetryDue(OperationOf(d, a), now, max);
    }
  }

  /** Each reservation the worker processes uses up at least one attempt. */
  lemma ReconcileSpends(s: Store, id: Uuid, now: int, max: nat, baseDelay: nat, replies: nat -> Reply)
    requires Consistent(s) && id in s.reservations && Selectable(s.reservations[id], now, max)
    requires ReconcileRow(s, id, WorkerContext(now, max, baseDelay), replies).Commit?
    ensures Budget(ReconcileRow(s, id, WorkerContext(now, max, baseDelay), replies).value, max) < Budget(s, max)
  {
    var d := WaitsInDirection(s.reservations[id], now, max);
    hide SettleFrom, Selectable, Consistent, AllocationsWeight;
    RetriedSettlementSpends(d, now, max, baseDelay, s, id, replies);
    TotalUpdate(AttemptsLeft(max), s.reservations, id, ReconcileRow(s, id, WorkerContext(now, max, baseDelay), replies).value.reservations[id]);
  }

  lemma {:induction false} ReleaseRowsSpend(s: Store, rows: seq<Uuid>, terminal: ReservationStatus, replies: Uuid -> nat -> Reply, max: nat)
    requires forall id | id in rows :: id in s.reservations
    requires ReleaseRows(s, rows, terminal, replies).Commit?
    ensures Budget(ReleaseRows(s, rows, terminal, replies).value, max) <= Budget(s, max)
    decreases |rows|
  {
    if rows != [] {
      ReleaseSpends(s, rows[0], terminal, USER_CONTEXT, replies(rows[0]), max);
      ReleaseRowsSpend(ReleaseRow(s, rows[0], terminal, USER_CONTEXT, replies(rows[0])).value, rows[1..], terminal, replies, max);
    }
  }

  predicate WorkerStep(step: Step, max: nat) {
    step.ExpireStep? || (step.ReconcileStep? && step.maxAttempts == max)
  }

  /** How many reservations the reconciliation worker processed in committed passes of a run. */
  ghost function Processed(s: Store, steps: seq<Step>): nat
    requires ValidRun(s, steps)
    decreases |steps|
  {
    if steps == [] then 0
    else (if steps[0].ReconcileStep? && Attempt(s, steps[0]).Commit? then |steps[0].rows| else 0)
         + Processed(Apply(s, steps[0]), steps[1..])
  }

  lemma WorkerStepSpends(s: Store, step: Step, max: nat)
    requires Consistent(s) && Possible(s, step) && WorkerStep(step, max)
    ensures Budget(Apply(s, step), max)
            + (if step.ReconcileStep? && Attempt(s, step).Commit? then |step.rows| else 0) <= Budget(s, max)
  {
    if Attempt(s, step).Commit? {
      match step {
        case ExpireStep(now, limit, locked, batch) =>
          DueRowsAreDue(s, now, limit, locked);
          ReleaseRowsSpend(s, DueRows(s, now, limit, locked), ReservationStatus.Expired, batch, max);
        case ReconcileStep(now, _, _, baseDelay, _, rows, batch) =>
          forall id | id in rows ensures id in SelectableIds(s, now, max) { SelectableMember(s, now, max, id); }
          BatchIsDone(s, rows, now, max, baseDelay, batch);
      }
    }
  }

  /** Over any run of worker steps the attempts left only fall, by at least one per processed reservation, so
      the workers can process no more reservations than there were attempts left. */
  lemma {:induction false} WorkersSpendBudget(s: Store, steps: seq<Step>, max: nat)
    requires Consistent(s) && ValidRun(s, steps)
    requires forall step | step in steps :: WorkerStep(step, max)
    ensures Processed(s, steps) + Budget(Run(s, steps), max) <= Budget(s, max)
    ensures Processed(s, steps) <= Budget(s, max)
    decreases |steps|
  {
    if steps == [] {
      assert forall id | id in s.reservations :: RowOk(s.providers, s.reservations[id]);
      TotalBounds(AttemptsLeft(max), s.reservations);
    } else {
      WorkerStepSpends(s, steps[0], max);
      StepConsistent(s, steps[0]);
      WorkersSpendBudget(Apply(s, steps[0]), steps[1..], max);
    }
  }
}
