/** Answering a create request whose idempotency key is already in use. */
module Retry {
  import opened Types
  import opened Settlement
  import opened Transactions
  import opened Consistency
  import opened Lifecycle
  import Routing
  import Fingerprint

  /** Every stored fingerprint is the canonical text of the stored items. */
  predicate Fingerprinted(s: Store) {
    forall id | id in s.reservations :: s.reservations[id].fingerprint == Fingerprint.Canonical(s.reservations[id].items)
  }

  lemma CreateFingerprints(s: Store, q: CreateRequest, holds: nat -> Uuid -> Routing.CandidateReply, releases: nat -> Reply)
    requires Fingerprinted(s)
    ensures Fingerprinted(Create(s, q, holds, releases).store)
  {
    if !KeyTaken(s.reservations, q.user, q.key) && AddWithHold(s, Draft(q), holds, releases).Commit? {
      AddWithHoldAddsOneRow(s, Draft(q), holds, releases);
      AddWithHoldKeepsRequest(s, Draft(q), holds, releases);
    }
  }

  lemma AddWithHoldKeepsRequest(s: Store, q: Reservation, holds: nat -> Uuid -> Routing.CandidateReply, releases: nat -> Reply)
    requires AddWithHold(s, q, holds, releases).Commit?
    ensures var t := AddWithHold(s, q, holds, releases).value.store;
            q.id in t.reservations && SameRequest(q, t.reservations[q.id])
  {
  }

  /** Only create adds rows. */
  lemma OtherStepsAddNoRows(s: Store, step: Step)
    requires Consistent(s) && Possible(s, step) && !step.CreateStep?
    ensures Apply(s, step).reservations.Keys == s.reservations.Keys
  {
    hide SettleFrom, Consistent, DueRows;
    if Attempt(s, step).Commit? {
      match step {
        case ExpireStep(now, limit, locked, batch) =>
          DueRowsAreDue(s, now, limit, locked);
          ReleaseRowsKeys(s, DueRows(s, now, limit, locked), ReservationStatus.Expired, batch);
        case ReconcileStep(now, _, maxAttempts, baseDelay, _, rows, batch) =>
          ReconcileRowsKeys(s, rows, WorkerContext(now, maxAttempts, baseDelay), batch);
        case _ =>
      }
    }
  }

  lemma {:induction false} ReleaseRowsKeys(s: Store, rows: seq<Uuid>, terminal: ReservationStatus, replies: Uuid -> nat -> Reply)
    requires forall id | id in rows :: id in s.reservations
    requires ReleaseRows(s, rows, terminal, replies).Commit?
    ensures ReleaseRows(s, rows, terminal, replies).value.reservations.Keys == s.reservations.Keys
    decreases |rows|
  {
    if rows != [] {
      ReleaseRowsKeys(ReleaseRow(s, rows[0], terminal, USER_CONTEXT, replies(rows[0])).value, rows[1..], terminal, replies);
    }
  }

  lemma {:induction false} ReconcileRowsKeys(s: Store, rows: seq<Uuid>, c: Context, replies: Uuid -> nat -> Reply)
    requires forall id | id in rows :: id in s.reservations
    requires ReconcileRows(s, rows, c, replies).Commit?
    ensures ReconcileRows(s, rows, c, replies).value.reservations.Keys == s.reservations.Keys
    decreases |rows|
  {
    if rows != [] {
      ReconcileRowsKeys(ReconcileRow(s, rows[0], c, replies(rows[0])).value, rows[1..], c, replies);
    }
  }

  lemma StepFingerprints(s: Store, step: Step)
    requires Consistent(s) && Fingerprinted(s) && Possible(s, step)
    ensures Fingerprinted(Apply(s, step))
  {
    StepConsistent(s, step);
    if step.CreateStep? {
      CreateFingerprints(s, step.request, step.holds, step.compensation);
    } else {
      OtherStepsAddNoRows(s, step);
      forall id | id in Apply(s, step).reservations
        ensures Apply(s, step).reservations[id].fingerprint == Fingerprint.Canonical(Apply(s, step).reservations[id].items)
      {
        assert id in s.reservations;
      }
    }
  }

  lemma {:induction false} RunFingerprints(s: Store, steps: seq<Step>)
    requires Consistent(s) && Fingerprinted(s) && ValidRun(s, steps)
    ensures Consistent(Run(s, steps)) && Fingerprinted(Run(s, steps))
    decreases |steps|
  {
    if steps != [] {
      StepConsistent(s, steps[0]);
      StepFingerprints(s, steps[0]);
      RunFingerprints(Apply(s, steps[0]), steps[1..]);
    }
  }

  /** A repeated key never changes the store. It is a conflict exactly when it asks for other items than the
      first time; otherwise the stored reservation answers, as insufficient stock if its create had failed. */
  lemma RetryAnswers(s: Store, q: CreateRequest, id: Uuid, holds: nat -> Uuid -> Routing.CandidateReply, releases: nat -> Reply)
    requires Consistent(s) && Fingerprinted(s)
    requires id in s.reservations && s.reservations[id].user == q.user && s.reservations[id].key == q.key
    ensures var r := s.reservations[id];
            var x := Create(s, q, holds, releases);
            && x.store == s
            && x.answer == (if !QuantitiesValid(q.items) then Raise(InvalidReservationQuantityError)
                            else if multiset(q.items) != multiset(r.items) then Raise(IdempotencyConflictError)
                            else if r.status.Failed? || r.target == Some(ReservationStatus.Failed) then Raise(InsufficientInventoryError)
                            else Commit(r))
  {
    var r := s.reservations[id];
    assert FindByKey(s.reservations, q.user, q.key) == id;
    assert RowOk(s.providers, r);
    Fingerprint.DistinctProductsSuffice(r.items);
    Fingerprint.CanonicalForm(r.items, q.items);
  }

  // ----- A failed create stays failed -----

  predicate TouchesByUser(step: Step, id: Uuid) {
    (step.ConfirmStep? && step.id == id) || (step.CancelStep? && step.id == id)
  }

  lemma {:induction false} ReleaseRowsElsewhere(s: Store, rows: seq<Uuid>, terminal: ReservationStatus, replies: Uuid -> nat -> Reply, id: Uuid)
    requires forall x | x in rows :: x in s.reservations
    requires id in s.reservations && id !in rows
    requires ReleaseRows(s, rows, terminal, replies).Commit?
    ensures var t := ReleaseRows(s, rows, terminal, replies).value; id in t.reservations && t.reservations[id] == s.reservations[id]
    decreases |rows|
  {
    if rows != [] {
      ReleaseRowsElsewhere(ReleaseRow(s, rows[0], terminal, USER_CONTEXT, replies(rows[0])).value, rows[1..], terminal, replies, id);
    }
  }

  lemma {:induction false} ReconcileRowsKeepFailed(s: Store, rows: seq<Uuid>, c: Context, replies: Uuid -> nat -> Reply, id: Uuid)
    requires forall x | x in rows :: x in s.reservations
    requires id in s.reservations && FailedCreate(s.reservations[id])
    requires ReconcileRows(s, rows, c, replies).Commit?
    ensures var t := ReconcileRows(s, rows, c, replies).value; id in t.reservations && FailedCreate(t.reservations[id])
    decreases |rows|
  {
    if rows != [] {
      ReconcileRowsKeepFailed(ReconcileRow(s, rows[0], c, replies(rows[0])).value, rows[1..], c, replies, id);
    }
  }

  /** Confirming or cancelling one reservation leaves every other row as it is. */
  lemma UserStepElsewhere(s: Store, step: Step, id: Uuid)
    requires (step.ConfirmStep? || step.CancelStep?) && step.id != id && id in s.reservations
    ensures id in Apply(s, step).reservations && Apply(s, step).reservations[id] == s.reservations[id]
  {
    if step.ConfirmStep? {
      assert Apply(s, step) == match Confirm(s, step.id, step.user, step.replies) case Commit(t) => t case Raise(_) => s;
    } else {
      assert Apply(s, step) == match Cancel(s, step.id, step.user, step.replies) case Commit(t) => t case Raise(_) => s;
    }
  }

  lemma CreateElsewhere(s: Store, q: CreateRequest, holds: nat -> Uuid -> Routing.CandidateReply, releases: nat -> Reply, id: Uuid)
    requires id in s.reservations
    ensures var t := Create(s, q, holds, releases).store; id in t.reservations && t.reservations[id] == s.reservations[id]
  {
    if !KeyTaken(s.reservations, q.user, q.key) && AddWithHold(s, Draft(q), holds, releases).Commit? {
      AddWithHoldAddsOneRow(s, Draft(q), holds, releases);
    }
  }

  /** Neither workers, operators, other users' requests nor retries revive a failed create. */
  lemma StepKeepsFailed(s: Store, step: Step, id: Uuid)
    requires Consistent(s) && Possible(s, step) && !TouchesByUser(step, id)
    requires id in s.reservations && FailedCreate(s.reservations[id])
    ensures id in Apply(s, step).reservations && FailedCreate(Apply(s, step).reservations[id])
  {
    if Attempt(s, step).Commit? {
      match step {
        case CreateStep(q, holds, compensation) => CreateElsewhere(s, q, holds, compensation, id);
        case ConfirmStep(_, _, _) => UserStepElsewhere(s, step, id);
        case CancelStep(_, _, _) => UserStepElsewhere(s, step, id);
        case ExpireStep(now, limit, locked, batch) =>
          DueRowsAreDue(s, now, limit, locked);
          ReleaseRowsElsewhere(s, DueRows(s, now, limit, locked), ReservationStatus.Expired, batch, id);
        case ReconcileStep(now, _, maxAttempts, baseDelay, _, rows, batch) =>
          ReconcileRowsKeepFailed(s, rows, WorkerContext(now, maxAttempts, baseDelay), batch, id);
        case _ =>
      }
    }
  }

  lemma FailedRetry(s: Store, id: Uuid, q: CreateRequest, holds: nat -> Uuid -> Routing.CandidateReply, releases: nat -> Reply)
    requires Consistent(s) && Fingerprinted(s)
    requires id in s.reservations && FailedCreate(s.reservations[id])
    requires OwnsKey(s.reservations[id], q.user, q.key) && multiset(q.items) == multiset(s.reservations[id].items)
    ensures Create(s, q, holds, releases) == Created(s, Raise(InsufficientInventoryError))
  {
    RetryAnswers(s, q, id, holds, releases);
    assert RowOk(s.providers, s.reservations[id]);
    hide Create, Consistent, Fingerprinted;
    forall item | item in q.items ensures item.quantity > 0 {
      assert item in multiset(q.items) && item in s.reservations[id].items;
    }
  }

  /** Once a create has failed for lack of stock, a retry with the same key and the same items, in any order,
      raises insufficient inventory and changes nothing, after any run without a confirm or cancel of it. */
  lemma {:induction false} FailedCreateIsStable(s: Store, steps: seq<Step>, id: Uuid, q: CreateRequest,
                                                holds: nat -> Uuid -> Routing.CandidateReply, releases: nat -> Reply)
    requires Consistent(s) && Fingerprinted(s) && ValidRun(s, steps)
    requires id in s.reservations && FailedCreate(s.reservations[id])
    requires forall step | step in steps :: !TouchesByUser(step, id)
    requires OwnsKey(s.reservations[id], q.user, q.key) && multiset(q.items) == multiset(s.reservations[id].items)
    ensures var t := Run(s, steps);
            Create(t, q, holds, releases) == Created(t, Raise(InsufficientInventoryError))
    decreases |steps|
  {
    if steps == [] {
      FailedRetry(s, id, q, holds, releases);
    } else {
      assert steps[0] in steps && forall x | x in steps[1..] :: x in steps;
      StepConsistent(s, steps[0]);
      StepFingerprints(s, steps[0]);
      StepKeepsFailed(s, steps[0], id);
      hide Create, Apply, Consistent, Fingerprinted, FailedCreate, TouchesByUser;
      FailedCreateIsStable(Apply(s, steps[0]), steps[1..], id, q, holds, releases);
    }
  }
}
