/** The service: each use case in one transaction that is rolled back completely on any raised error,
    and the two worker loops. */
module ReservationService {
  import opened Types
  import opened Database
  import opened Settlement
  import opened Transactions
  import opened Workers
  import Columns
  import Consistency
  import Reconciliation
  import ReservationRepository
  import Fingerprint
  import Routing

  class Service {
    const session: Session
    const repository: ReservationRepository.Repository

    constructor (session: Session)
      ensures this.session == session && Wired()
    {
      this.session := session;
      repository := new ReservationRepository.Repository(session);
    }

    predicate Wired() { repository.session == session && repository.Wired() }

    /** Leaving a transaction through an exception. */
    method Rollback(offers: Offers, reservations: Reservations, orders: seq<Order>)
      modifies session`offers, session`reservations, session`orders
      ensures session.offers == offers && session.reservations == reservations && session.orders == orders
    {
      session.offers, session.reservations, session.orders := offers, reservations, orders;
    }

    /** Read, insert, hold and commit in one go; `CreateRace` has the interleavings. */
    method Create(q: CreateRequest, holds: nat -> Uuid -> Routing.CandidateReply, releases: nat -> Reply) returns (answer: Tx<Reservation>)
      requires Wired() && Consistency.KeysUnique(session.reservations)
      modifies session`offers, session`reservations, session`orders
      ensures Created(session.Snapshot(), answer) == Transactions.Create(old(session.Snapshot()), q, holds, releases)
      ensures q.id !in old(session.reservations) && q.id in session.reservations ==>
                var r := session.reservations[q.id];
                r.user == q.user && r.key == q.key && r.items == q.items && r.createdAt == q.now && r.expiresAt == q.now + q.ttl
    {
      Columns.NewRowWhenAny(session.Snapshot(), q, holds, releases);
      var offers, reservations, orders := session.offers, session.reservations, session.orders;
      if !QuantitiesValid(q.items) { return Raise(InvalidReservationQuantityError); }
      var existing := repository.GetByKey(q.user, q.key);
      if existing.Some? {
        assert existing.value == session.reservations[FindByKey(session.reservations, q.user, q.key)];
        return ResolveRetry(existing.value, Fingerprint.Canonical(q.items));
      }
      var error, held := repository.AddWithHold(Draft(q), holds, releases);
      if error.Some? {
        Rollback(offers, reservations, orders);
        return Raise(error.value);
      }
      return if held then Commit(Draft(q)) else Raise(InsufficientInventoryError);
    }

    method Confirm(id: Uuid, user: Uuid, replies: nat -> Reply) returns (answer: Tx<Option<Reservation>>)
      requires Wired()
      modifies session`offers, session`reservations, session`orders
      ensures session.Snapshot() == Apply(old(session.Snapshot()), ConfirmStep(id, user, replies))
      ensures match Transactions.Confirm(old(session.Snapshot()), id, user, replies)
              case Raise(e) => answer == Raise(e)
              case Commit(t) => answer == Commit(Lookup(t, id, user))
      ensures id !in old(session.reservations) || old(session.reservations)[id].user != user ==>
                answer == Commit(None) && session.Snapshot() == old(session.Snapshot())
      ensures answer.Commit? && id in old(session.reservations) && old(session.reservations)[id].user == user ==>
                id in session.reservations && answer.value == Some(session.reservations[id])
    {
      var offers, reservations, orders := session.offers, session.reservations, session.orders;
      var error, row := repository.Confirm(id, user, replies);
      if error.Some? {
        Rollback(offers, reservations, orders);
        return Raise(error.value);
      }
      return Commit(row);
    }

    method Cancel(id: Uuid, user: Uuid, replies: nat -> Reply) returns (answer: Tx<Option<Reservation>>)
      requires Wired()
      modifies session`offers, session`reservations, session`orders
      ensures session.Snapshot() == Apply(old(session.Snapshot()), CancelStep(id, user, replies))
      ensures match Transactions.Cancel(old(session.Snapshot()), id, user, replies)
              case Raise(e) => answer == Raise(e)
              case Commit(t) => answer == Commit(Lookup(t, id, user))
      ensures id !in old(session.reservations) || old(session.reservations)[id].user != user ==>
                answer == Commit(None) && session.Snapshot() == old(session.Snapshot())
      ensures answer.Commit? && id in old(session.reservations) && old(session.reservations)[id].user == user ==>
                id in session.reservations && answer.value == Some(session.reservations[id])
    {
      var offers, reservations, orders := session.offers, session.reservations, session.orders;
      var error, row := repository.Cancel(id, user, replies);
      if error.Some? {
        Rollback(offers, reservations, orders);
        return Raise(error.value);
      }
      return Commit(row);
    }

    method ExpireOnce(now: int, limit: nat, locked: set<Uuid>, replies: Uuid -> nat -> Reply) returns (answer: Tx<nat>)
      requires Wired()
      modifies session`offers, session`reservations, session`orders
      ensures var s, step := old(session.Snapshot()), ExpireStep(now, limit, locked, replies);
              && session.Snapshot() == Apply(s, step)
              && (answer.Raise? <==> Attempt(s, step).Raise?)
              && (answer.Commit? ==> answer.value == BatchSize(s, step))
    {
      var offers, reservations, orders := session.offers, session.reservations, session.orders;
      var error, rows := repository.ExpireBatch(now, limit, locked, replies);
      if error.Some? {
        Rollback(offers, reservations, orders);
        return Raise(error.value);
      }
      return Commit(|rows|);
    }

    method ReconcileOnce(now: int, limit: nat, maxAttempts: nat, baseDelay: nat, locked: set<Uuid>, replies: Uuid -> nat -> Reply)
      returns (answer: Tx<nat>, ghost step: Step)
      requires Wired() && baseDelay > 0
      modifies session`offers, session`reservations, session`orders
      ensures var s := old(session.Snapshot());
              && step.ReconcileStep? && step == ReconcileStep(now, limit, maxAttempts, baseDelay, locked, step.rows, replies)
              && Possible(s, step)
              && session.Snapshot() == Apply(s, step)
              && (answer.Raise? <==> Attempt(s, step).Raise?)
              && (answer.Commit? ==> answer.value == BatchSize(s, step))
    {
      var offers, reservations, orders := session.offers, session.reservations, session.orders;
      var error, rows := repository.ReconcileBatch(now, limit, maxAttempts, baseDelay, locked, replies);
      step := ReconcileStep(now, limit, maxAttempts, baseDelay, locked, rows, replies);
      if error.Some? {
        Rollback(offers, reservations, orders);
        return Raise(error.value), step;
      }
      return Commit(|rows|), step;
    }
  }

  datatype RunSummary = RunSummary(batchesProcessed: nat, reservationsProcessed: nat, batchesFailed: nat)

  /** One pass for each clock reading until the stop event is set; a failed batch is counted and the loop goes on.
      The worker goes straight on after a full batch; `waits` records after which passes it waits instead. */
  class ExpirationWorker {
    const service: Service
    const batchSize: nat

    constructor (service: Service, batchSize: nat)
      requires batchSize > 0
      ensures this.service == service && this.batchSize == batchSize
    {
      this.service := service;
      this.batchSize := batchSize;
    }

    method Run(clock: seq<int>, locked: nat -> set<Uuid>, replies: nat -> Uuid -> nat -> Reply) returns (summary: RunSummary, waits: seq<bool>, ghost steps: seq<Step>)
      requires service.Wired() && batchSize > 0
      modifies service.session`offers, service.session`reservations, service.session`orders
      ensures |steps| == |clock| && forall i | 0 <= i < |clock| :: steps[i] == ExpireStep(clock[i], batchSize, locked(i), replies(i))
      ensures var s := old(service.session.Snapshot());
              && ValidRun(s, steps) && service.session.Snapshot() == Transactions.Run(s, steps)
              && summary.reservationsProcessed == Taken(s, steps)
              && summary.batchesFailed == RolledBack(s, steps)
              && waits == Waits(s, steps, batchSize)
              && summary.batchesProcessed == |clock| - RolledBack(s, steps)
    {
      hide Apply, Attempt, Transactions.Run, ValidRun, Waits, Taken, RolledBack, BatchSize;
      summary := RunSummary(0, 0, 0);
      waits, steps := [], [];
      ghost var s := service.session.Snapshot();
      NoPass(s, batchSize);
      var i := 0;
      while i < |clock|
        invariant i <= |clock| && |steps| == i
        invariant forall j | 0 <= j < i :: steps[j] == ExpireStep(clock[j], batchSize, locked(j), replies(j))
        invariant ValidRun(s, steps) && service.session.Snapshot() == Transactions.Run(s, steps)
        invariant summary.reservationsProcessed == Taken(s, steps)
        invariant waits == Waits(s, steps, batchSize)
        invariant summary.batchesFailed == RolledBack(s, steps) && summary.batchesProcessed + summary.batchesFailed == i
      {
        ghost var step := ExpireStep(clock[i], batchSize, locked(i), replies(i));
        var answer := service.ExpireOnce(clock[i], batchSize, locked(i), replies(i));
        OneMorePass(s, steps, step, batchSize);
        match answer {
          case Raise(_) =>
            RaisedTakesNothing(Transactions.Run(s, steps), step);
            summary := summary.(batchesFailed := summary.batchesFailed + 1);
            waits := waits + [true];
          case Commit(n) =>
            summary := summary.(batchesProcessed := summary.batchesProcessed + 1, reservationsProcessed := summary.reservationsProcessed + n);
            waits := waits + [n != batchSize];
        }
        steps := steps + [step];
        i := i + 1;
      }
    }
  }

  class ReconciliationWorker {
    const service: Service
    const batchSize: nat
    const maxAttempts: nat
    const baseDelay: nat

    constructor (service: Service, batchSize: nat, maxAttempts: nat, baseDelay: nat)
      requires batchSize > 0 && maxAttempts > 0 && baseDelay > 0
      ensures this.service == service && this.batchSize == batchSize && this.maxAttempts == maxAttempts && this.baseDelay == baseDelay
    {
      this.service := service;
      this.batchSize := batchSize;
      this.maxAttempts := maxAttempts;
      this.baseDelay := baseDelay;
    }

    /** The pass made at one clock reading, with the worker's own settings. */
    ghost predicate Pass(step: Step, now: int, locked: set<Uuid>, replies: Uuid -> nat -> Reply) {
      step.ReconcileStep? && step == ReconcileStep(now, batchSize, maxAttempts, baseDelay, locked, step.rows, replies)
    }

    /** Started on a consistent store, the worker never processes more reservations than attempts are left. */
    method Run(clock: seq<int>, locked: nat -> set<Uuid>, replies: nat -> Uuid -> nat -> Reply) returns (summary: RunSummary, waits: seq<bool>, ghost steps: seq<Step>)
      requires service.Wired() && batchSize > 0 && baseDelay > 0
      modifies service.session`offers, service.session`reservations, service.session`orders
      ensures |steps| == |clock| && forall i | 0 <= i < |clock| :: Pass(steps[i], clock[i], locked(i), replies(i))
      ensures var s := old(service.session.Snapshot());
              && ValidRun(s, steps) && service.session.Snapshot() == Transactions.Run(s, steps)
              && summary.reservationsProcessed == Taken(s, steps)
              && summary.batchesFailed == RolledBack(s, steps)
              && waits == Waits(s, steps, batchSize)
              && summary.batchesProcessed == |clock| - RolledBack(s, steps)
              && (Consistency.Consistent(s) ==> summary.reservationsProcessed <= Reconciliation.Budget(s, maxAttempts))
    {
      hide Apply, Attempt, Transactions.Run, ValidRun, Waits, Taken, RolledBack, BatchSize, Possible;
      summary := RunSummary(0, 0, 0);
      waits, steps := [], [];
      ghost var s := service.session.Snapshot();
      NoPass(s, batchSize);
      var i := 0;
      while i < |clock|
        invariant i <= |clock| && |steps| == i
        invariant forall j | 0 <= j < i :: Pass(steps[j], clock[j], locked(j), replies(j))
        invariant ValidRun(s, steps) && service.session.Snapshot() == Transactions.Run(s, steps)
        invariant summary.reservationsProcessed == Taken(s, steps)
        invariant waits == Waits(s, steps, batchSize)
        invariant summary.batchesFailed == RolledBack(s, steps) && summary.batchesProcessed + summary.batchesFailed == i
      {
        var answer;
        ghost var step;
        answer, step := service.ReconcileOnce(clock[i], batchSize, maxAttempts, baseDelay, locked(i), replies(i));
        OneMorePass(s, steps, step, batchSize);
        match answer {
          case Raise(_) =>
            RaisedTakesNothing(Transactions.Run(s, steps), step);
            summary := summary.(batchesFailed := summary.batchesFailed + 1);
            waits := waits + [true];
          case Commit(n) =>
            summary := summary.(batchesProcessed := summary.batchesProcessed + 1, reservationsProcessed := summary.reservationsProcessed + n);
            waits := waits + [n != batchSize];
        }
        steps := steps + [step];
        i := i + 1;
      }
      if Consistency.Consistent(s) {
        assert forall step | step in steps :: step.ReconcileStep? && step.maxAttempts == maxAttempts;
        ReconcilingStaysWithinBudget(s, steps, maxAttempts);
      }
    }
  }
}
