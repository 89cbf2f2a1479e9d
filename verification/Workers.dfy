/** What the worker loops amount to: runs of batch steps. */
module Workers {
  import opened Types
  import opened Transactions
  import opened Consistency
  import opened Lifecycle
  import opened Expiry
  import Reconciliation
  import Routing

  lemma {:induction false} RunAppend(s: Store, steps: seq<Step>, step: Step)
    requires ValidRun(s, steps) && Possible(Run(s, steps), step)
    ensures ValidRun(s, steps + [step]) && Run(s, steps + [step]) == Apply(Run(s, steps), step)
    decreases |steps|
  {
    if steps == [] {
      assert [step][1..] == [];
    } else {
      assert (steps + [step])[0] == steps[0] && (steps + [step])[1..] == steps[1..] + [step];
      RunAppend(Apply(s, steps[0]), steps[1..], step);
    }
  }

  /** Reservations taken by one committed batch. */
  ghost function BatchSize(s: Store, step: Step): nat
    requires Possible(s, step)
  {
    if Attempt(s, step).Raise? then 0
    else
      match step
      case ExpireStep(now, limit, locked, _) => |DueRows(s, now, limit, locked)|
      case ReconcileStep(_, _, _, _, _, rows, _) => |rows|
      case _ => 0
  }

  ghost function Taken(s: Store, steps: seq<Step>): nat
    requires ValidRun(s, steps)
    decreases |steps|
  {
    if steps == [] then 0 else BatchSize(s, steps[0]) + Taken(Apply(s, steps[0]), steps[1..])
  }

  /** Batches of a run that raised and were rolled back. */
  ghost function RolledBack(s: Store, steps: seq<Step>): nat
    requires ValidRun(s, steps)
    decreases |steps|
  {
    if steps == [] then 0
    else (if Attempt(s, steps[0]).Raise? then 1 else 0) + RolledBack(Apply(s, steps[0]), steps[1..])
  }

  /** After which passes the worker waits before the next one: all that did not come back full. */
  ghost function Waits(s: Store, steps: seq<Step>, batchSize: nat): seq<bool>
    requires ValidRun(s, steps)
    decreases |steps|
  {
    if steps == [] then [] else [BatchSize(s, steps[0]) != batchSize] + Waits(Apply(s, steps[0]), steps[1..], batchSize)
  }

  lemma {:induction false} WaitsAppend(s: Store, steps: seq<Step>, step: Step, batchSize: nat)
    requires ValidRun(s, steps) && Possible(Run(s, steps), step)
    ensures ValidRun(s, steps + [step])
    ensures Waits(s, steps + [step], batchSize) == Waits(s, steps, batchSize) + [BatchSize(Run(s, steps), step) != batchSize]
    decreases |steps|
  {
    hide Apply, Attempt, BatchSize, Possible;
    RunAppend(s, steps, step);
    if steps == [] {
      assert [step][1..] == [];
    } else {
      assert (steps + [step])[0] == steps[0] && (steps + [step])[1..] == steps[1..] + [step];
      WaitsAppend(Apply(s, steps[0]), steps[1..], step, batchSize);
    }
  }

  lemma {:induction false} TakenAppend(s: Store, steps: seq<Step>, step: Step)
    requires ValidRun(s, steps) && Possible(Run(s, steps), step)
    ensures ValidRun(s, steps + [step]) && Taken(s, steps + [step]) == Taken(s, steps) + BatchSize(Run(s, steps), step)
    ensures RolledBack(s, steps + [step]) == RolledBack(s, steps) + if Attempt(Run(s, steps), step).Raise? then 1 else 0
    decreases |steps|
  {
    RunAppend(s, steps, step);
    if steps == [] {
      assert [step][1..] == [];
    } else {
      assert (steps + [step])[0] == steps[0] && (steps + [step])[1..] == steps[1..] + [step];
      TakenAppend(Apply(s, steps[0]), steps[1..], step);
    }
  }

  lemma NoPass(s: Store, batchSize: nat)
    ensures ValidRun(s, []) && Run(s, []) == s
    ensures Taken(s, []) == 0 && RolledBack(s, []) == 0 && Waits(s, [], batchSize) == []
  {
  }

  lemma RaisedTakesNothing(s: Store, step: Step)
    requires Possible(s, step) && Attempt(s, step).Raise?
    ensures BatchSize(s, step) == 0
  {
  }

  /** One more pass of a worker loop: everything its summary is made of. */
  lemma OneMorePass(s: Store, steps: seq<Step>, step: Step, batchSize: nat)
    requires ValidRun(s, steps) && Possible(Run(s, steps), step)
    ensures ValidRun(s, steps + [step]) && Run(s, steps + [step]) == Apply(Run(s, steps), step)
    ensures Taken(s, steps + [step]) == Taken(s, steps) + BatchSize(Run(s, steps), step)
    ensures RolledBack(s, steps + [step]) == RolledBack(s, steps) + if Attempt(Run(s, steps), step).Raise? then 1 else 0
    ensures Waits(s, steps + [step], batchSize) == Waits(s, steps, batchSize) + [BatchSize(Run(s, steps), step) != batchSize]
  {
    RunAppend(s, steps, step);
    TakenAppend(s, steps, step);
    WaitsAppend(s, steps, step, batchSize);
    hide Run, Taken, RolledBack, Waits, Apply, Attempt, BatchSize;
  }

  /** Passes at one clock reading that meet the same answers; whatever each of them finds locked lies within `locked`. */
  ghost predicate ExpirePasses(s: Store, steps: seq<Step>, now: int, limit: nat, locked: set<Uuid>, answers: Answers) {
    forall step | step in steps ::
      step.ExpireStep? && step.now == now && step.limit == limit && step.locked <= locked && Told(s, now, step.batch, answers)
  }

  /** Enough passes for the rows that are due, unless only lockable ones are left. */
  ghost predicate Enough(n: nat, s: Store, now: int, limit: nat, locked: set<Uuid>) {
    n * limit > |DueIds(s, now)| || DueIds(s, now) <= locked
  }

  lemma ExpireApplied(s: Store, step: Step)
    requires step.ExpireStep? && ExpireBatch(s, step.now, step.limit, step.locked, step.batch).Commit?
    ensures Apply(s, step) == ExpireBatch(s, step.now, step.limit, step.locked, step.batch).value
    ensures BatchSize(s, step) == |DueRows(s, step.now, step.limit, step.locked)|
  {
  }

  /** The first of `n` passes leaves work for at most `n - 1` of them. */
  lemma FirstPass(s: Store, step: Step, now: int, limit: nat, locked: set<Uuid>, answers: Answers, n: nat)
    requires Live(s) && DueSettle(s, now, answers) && n > 0 && Possible(s, step)
    requires ExpirePasses(s, [step], now, limit, locked, answers) && Enough(n, s, now, limit, locked)
    ensures var t := Apply(s, step);
            && Live(t) && DueSettle(t, now, answers) && SameDue(s, t, now) && ExpireAll(t, now, answers) == ExpireAll(s, now, answers)
            && Enough(n - 1, t, now, limit, locked)
            && |DueIds(t, now)| + BatchSize(s, step) == |DueIds(s, now)|
  {
    assert step in [step];
    BatchStep(s, now, limit, step.locked, step.batch, answers);
    ExpireApplied(s, step);
    DueRowsAreDue(s, now, limit, step.locked);
    Reconciliation.OneMore(n, limit);
    hide Apply, Attempt, BatchSize, ExpireBatch, DueRows, ExpireAll, DueIds, Live, DueSettle, IsDue, Routing.Distinct, Members;
  }

  lemma PassesStillTold(s: Store, t: Store, steps: seq<Step>, now: int, limit: nat, locked: set<Uuid>, answers: Answers)
    requires steps != [] && SameDue(s, t, now) && ExpirePasses(s, steps, now, limit, locked, answers)
    ensures ExpirePasses(t, steps[1..], now, limit, locked, answers)
  {
    forall step | step in steps[1..] ensures Told(t, now, step.batch, answers) {
      assert step in steps;
      StillTold(s, t, now, step.batch, answers);
    }
  }

  /** One pass for each batch from number `n` on. */
  ghost predicate PassesFrom(steps: seq<Step>, now: int, limit: nat, locked: nat -> set<Uuid>, n: nat, answers: Answers) {
    forall i | 0 <= i < |steps| :: steps[i] == ExpireStep(now, limit, locked(n + i), answers)
  }

  predicate OnlyLastWaits(waits: seq<bool>) {
    waits != [] && waits[|waits| - 1] && forall i | 0 <= i < |waits| - 1 :: !waits[i]
  }

  lemma StretchStep(s: Store, now: int, limit: nat, locked: nat -> set<Uuid>, n: nat, answers: Answers)
    requires Live(s) && DueSettle(s, now, answers) && limit > 0
    ensures var step := ExpireStep(now, limit, locked(n), answers);
            var t := Apply(s, step);
            && Live(t) && DueSettle(t, now, answers)
            && Drain(s, now, limit, locked, n, answers)
               == if BatchSize(s, step) != limit then Commit(Drained(t, n)) else Drain(t, now, limit, locked, n + 1, answers)
  {
    ToldItself(s, now, answers);
    BatchStep(s, now, limit, locked(n), answers, answers);
    DueRowsAreDue(s, now, limit, locked(n));
    ExpireApplied(s, ExpireStep(now, limit, locked(n), answers));
    hide Apply, Attempt, BatchSize, ExpireBatch, DueRows, ExpireAll, DueIds, Live, DueSettle, IsDue, Routing.Distinct, Members;
  }

  lemma StretchTail(s: Store, steps: seq<Step>, now: int, limit: nat, locked: nat -> set<Uuid>, n: nat, answers: Answers)
    requires |steps| > 1 && ValidRun(s, steps) && PassesFrom(steps, now, limit, locked, n, answers) && OnlyLastWaits(Waits(s, steps, limit))
    ensures BatchSize(s, steps[0]) == limit
    ensures var t := Apply(s, steps[0]);
            && ValidRun(t, steps[1..]) && PassesFrom(steps[1..], now, limit, locked, n + 1, answers)
            && OnlyLastWaits(Waits(t, steps[1..], limit)) && Run(s, steps) == Run(t, steps[1..])
  {
    hide Apply, Attempt, BatchSize, Possible;
    var waits, t := Waits(s, steps, limit), Apply(s, steps[0]);
    assert waits == [BatchSize(s, steps[0]) != limit] + Waits(t, steps[1..], limit);
    WaitsLength(t, steps[1..], limit);
    assert !waits[0];
    forall i | 0 <= i < |steps[1..]| ensures steps[1..][i] == ExpireStep(now, limit, locked(n + 1 + i), answers) {
      assert steps[1..][i] == steps[i + 1] && n + 1 + i == n + (i + 1);
    }
    assert forall i | 0 <= i < |waits| - 1 :: Waits(t, steps[1..], limit)[i] == waits[i + 1];
  }

  lemma StretchHead(s: Store, steps: seq<Step>, now: int, limit: nat, locked: nat -> set<Uuid>, n: nat, answers: Answers)
    requires ValidRun(s, steps) && PassesFrom(steps, now, limit, locked, n, answers) && OnlyLastWaits(Waits(s, steps, limit))
    ensures steps != [] && Possible(s, steps[0]) && steps[0] == ExpireStep(now, limit, locked(n), answers)
  {
    hide Apply, BatchSize, Possible;
    WaitsLength(s, steps, limit);
    assert n + 0 == n;
  }

  lemma StretchEnd(s: Store, step: Step, limit: nat)
    requires ValidRun(s, [step]) && OnlyLastWaits(Waits(s, [step], limit))
    ensures Possible(s, step) && BatchSize(s, step) != limit && Run(s, [step]) == Apply(s, step)
  {
    hide Apply, BatchSize, Possible;
    assert [step][1..] == [];
    assert Waits(s, [step], limit)[0] == (BatchSize(s, step) != limit);
    WaitsLength(s, [step], limit);
  }

  lemma {:induction false} WaitsLength(s: Store, steps: seq<Step>, batchSize: nat)
    requires ValidRun(s, steps)
    ensures |Waits(s, steps, batchSize)| == |steps|
    decreases |steps|
  {
    hide Apply, BatchSize, Possible;
    if steps != [] { WaitsLength(Apply(s, steps[0]), steps[1..], batchSize); }
  }

  /** What the worker does between two waits at one clock reading is one drain. */
  lemma {:induction false} StretchIsDrain(s: Store, steps: seq<Step>, now: int, limit: nat, locked: nat -> set<Uuid>, n: nat,
                                          answers: Answers)
    requires Live(s) && DueSettle(s, now, answers) && limit > 0
    requires ValidRun(s, steps) && PassesFrom(steps, now, limit, locked, n, answers)
    requires OnlyLastWaits(Waits(s, steps, limit))
    ensures Drain(s, now, limit, locked, n, answers) == Commit(Drained(Run(s, steps), n + |steps| - 1))
    decreases |steps|
  {
    hide Apply, BatchSize, Live, DueSettle, Drain, Possible, Run, ValidRun, Waits, OnlyLastWaits, PassesFrom;
    StretchHead(s, steps, now, limit, locked, n, answers);
    StretchStep(s, now, limit, locked, n, answers);
    if |steps| == 1 {
      assert steps == [steps[0]];
      StretchEnd(s, steps[0], limit);
    } else {
      StretchTail(s, steps, now, limit, locked, n, answers);
      StretchIsDrain(Apply(s, steps[0]), steps[1..], now, limit, locked, n + 1, answers);
    }
  }

  /** Whatever the passes find locked, running them at one clock reading never changes what the sweep will leave, and
      counts each reservation taken once. Once there are enough of them, only locked rows are still due; if nothing
      can be locked, the worker has then done exactly the sweep. */
  lemma {:induction false} EnoughPassesSweep(s: Store, steps: seq<Step>, now: int, limit: nat, locked: set<Uuid>, answers: Answers)
    requires Live(s) && DueSettle(s, now, answers)
    requires ValidRun(s, steps) && ExpirePasses(s, steps, now, limit, locked, answers)
    requires Enough(|steps|, s, now, limit, locked)
    ensures ExpireAll(Run(s, steps), now, answers) == ExpireAll(s, now, answers)
    ensures DueIds(Run(s, steps), now) <= locked
    ensures Taken(s, steps) + |DueIds(Run(s, steps), now)| == |DueIds(s, now)|
    ensures locked == {} ==> Run(s, steps) == ExpireAll(s, now, answers)
    decreases |steps|
  {
    if steps == [] {
      if locked == {} { SweepOfNothing(s, now, answers); }
    } else {
      var step := steps[0];
      assert step in steps;
      assert forall x | x in steps[1..] :: x in steps;
      FirstPass(s, step, now, limit, locked, answers, |steps|);
      PassesStillTold(s, Apply(s, step), steps, now, limit, locked, answers);
      EnoughPassesSweep(Apply(s, step), steps[1..], now, limit, locked, answers);
    }
  }

  lemma {:induction false} TakenIsProcessed(s: Store, steps: seq<Step>)
    requires ValidRun(s, steps) && forall step | step in steps :: step.ReconcileStep?
    ensures Taken(s, steps) == Reconciliation.Processed(s, steps)
    decreases |steps|
  {
    if steps != [] {
      assert steps[0] in steps;
      assert forall x | x in steps[1..] :: x in steps;
      TakenIsProcessed(Apply(s, steps[0]), steps[1..]);
    }
  }

  lemma ReconcilingStaysWithinBudget(s: Store, steps: seq<Step>, max: nat)
    requires Consistent(s) && ValidRun(s, steps)
    requires forall step | step in steps :: step.ReconcileStep? && step.maxAttempts == max
    ensures Taken(s, steps) <= Reconciliation.Budget(s, max)
  {
    TakenIsProcessed(s, steps);
    Reconciliation.WorkersSpendBudget(s, steps, max);
  }
}
