/** When a worker's batch commits: one transaction settles many reservations, and a single one can undo them all. */
module Batches {
  import opened Types
  import opened Rows
  import opened Settlement
  import opened Transactions
  import opened Consistency
  import opened Lifecycle
  import Routing

  /** Each allocation of the row settles on its own in direction `d`. */
  predicate AllSettle(d: Direction, c: Context, providers: Providers, r: Reservation, replies: nat -> Reply) {
    forall j | 0 <= j < |r.allocations| ::
      SettlesAlone(d, c, ProviderRow(providers, r.allocations[j].key.provider), r.allocations[j], replies(j))
  }

  lemma SettleRowCommitsIff(d: Direction, c: Context, s: Store, id: Uuid, replies: nat -> Reply)
    requires Live(s) && id in s.reservations
    requires forall a | a in s.reservations[id].allocations :: FreshlyHeld(a) || Sided(d, s.providers, a)
    ensures SettleFrom(d, c, s.providers, Books(s.offers, s.reservations[id].allocations), 0, replies).Commit?
            <==> AllSettle(d, c, s.providers, s.reservations[id], replies)
  {
    RowBacked(s, id);
    forall j | 0 <= j < |s.reservations[id].allocations| ensures Settleable(d, s.providers, s.reservations[id].allocations[j]) {
      assert s.reservations[id].allocations[j] in s.reservations[id].allocations;
    }
    SettleFromCommitsIff(d, c, s.providers, Books(s.offers, s.reservations[id].allocations), 0, replies);
  }

  // ----- Reconciliation -----

  /** Does reconciling this row succeed, whatever the rest of the batch does? */
  predicate RowSettles(providers: Providers, r: Reservation, c: Context, replies: nat -> Reply) {
    if r.status.Releasing? then AllSettle(ToRelease, c, providers, r, replies)
    else r.status.Confirming? ==> AllSettle(ToConfirm, c, providers, r, replies)
  }

  lemma ReconcileRowCommitsIff(s: Store, id: Uuid, c: Context, replies: nat -> Reply)
    requires Live(s) && id in s.reservations
    ensures ReconcileRow(s, id, c, replies).Commit? <==> RowSettles(s.providers, s.reservations[id], c, replies)
  {
    hide SettleFrom, AllSettle;
    var r := s.reservations[id];
    assert Tabled(s.providers, r);
    if r.status.Releasing? {
      SettleRowCommitsIff(ToRelease, c, s, id, replies);
    } else if r.status.Confirming? {
      SettleRowCommitsIff(ToConfirm, c, s, id, replies);
    }
  }

  lemma ReconcileRowKeepsRest(s: Store, id: Uuid, c: Context, replies: nat -> Reply)
    requires Live(s) && id in s.reservations && ReconcileRow(s, id, c, replies).Commit?
    ensures var t := ReconcileRow(s, id, c, replies).value;
            && Live(t) && t.providers == s.providers
            && forall x | x in s.reservations && x != id :: x in t.reservations && t.reservations[x] == s.reservations[x]
  {
    ReconcileRowLive(s, id, c, replies);
    ReconcileRowElsewhere(s, id, c, replies);
    hide ReconcileRow, Live;
  }

  /** A reconciliation batch commits exactly when each of its rows settles on its own. */
  lemma {:induction false} ReconcileRowsCommitIff(s: Store, rows: seq<Uuid>, c: Context, replies: Uuid -> nat -> Reply)
    requires Live(s) && Routing.Distinct(rows) && forall id | id in rows :: id in s.reservations
    ensures ReconcileRows(s, rows, c, replies).Commit?
            <==> forall id | id in rows :: RowSettles(s.providers, s.reservations[id], c, replies(id))
    decreases |rows|
  {
    hide ReconcileRow, RowSettles, Live;
    if rows != [] {
      var id := rows[0];
      assert forall x | x in rows[1..] :: x in rows && x != id;
      assert forall x | x in rows :: x == id || x in rows[1..];
      ReconcileRowCommitsIff(s, id, c, replies(id));
      if ReconcileRow(s, id, c, replies(id)).Commit? {
        ReconcileRowKeepsRest(s, id, c, replies(id));
        ReconcileRowsCommitIff(ReconcileRow(s, id, c, replies(id)).value, rows[1..], c, replies);
      }
    }
  }

  // ----- Expiry -----

  lemma ReleaseRowCommitsIff(s: Store, id: Uuid, terminal: ReservationStatus, replies: nat -> Reply)
    requires Live(s) && id in s.reservations && s.reservations[id].status.Pending?
    ensures ReleaseRow(s, id, terminal, USER_CONTEXT, replies).Commit?
            <==> AllSettle(ToRelease, USER_CONTEXT, s.providers, s.reservations[id], replies)
  {
    hide SettleFrom, AllSettle;
    assert Tabled(s.providers, s.reservations[id]);
    SettleRowCommitsIff(ToRelease, USER_CONTEXT, s, id, replies);
  }

  lemma ReleaseRowKeepsRest(s: Store, id: Uuid, terminal: ReservationStatus, replies: nat -> Reply)
    requires Live(s) && id in s.reservations && s.reservations[id].status.Pending? && IsReleaseTarget(Some(terminal))
    requires ReleaseRow(s, id, terminal, USER_CONTEXT, replies).Commit?
    ensures var t := ReleaseRow(s, id, terminal, USER_CONTEXT, replies).value;
            && Live(t) && t.providers == s.providers
            && forall x | x in s.reservations && x != id :: x in t.reservations && t.reservations[x] == s.reservations[x]
  {
    assert Tabled(s.providers, s.reservations[id]);
    ReleaseRowLive(s, id, terminal, USER_CONTEXT, replies);
    ReleaseRowElsewhere(s, id, terminal, USER_CONTEXT, replies);
    hide SettleFrom, Live;
  }

  lemma {:induction false} ReleaseRowsCommitIff(s: Store, rows: seq<Uuid>, terminal: ReservationStatus, replies: Uuid -> nat -> Reply)
    requires Live(s) && Routing.Distinct(rows) && IsReleaseTarget(Some(terminal))
    requires forall id | id in rows :: id in s.reservations && s.reservations[id].status.Pending?
    ensures ReleaseRows(s, rows, terminal, replies).Commit?
            <==> forall id | id in rows :: AllSettle(ToRelease, USER_CONTEXT, s.providers, s.reservations[id], replies(id))
    decreases |rows|
  {
    hide ReleaseRow, AllSettle, Live;
    if rows != [] {
      var id := rows[0];
      assert forall x | x in rows[1..] :: x in rows && x != id;
      assert forall x | x in rows :: x == id || x in rows[1..];
      ReleaseRowCommitsIff(s, id, terminal, replies(id));
      if ReleaseRow(s, id, terminal, USER_CONTEXT, replies(id)).Commit? {
        ReleaseRowKeepsRest(s, id, terminal, replies(id));
        ReleaseRowsCommitIff(ReleaseRow(s, id, terminal, USER_CONTEXT, replies(id)).value, rows[1..], terminal, replies);
      }
    }
  }

  /** An expiry batch commits exactly when each of its rows, seen on its own, releases without an error: its external
      providers still support release and give an answer. */
  lemma ExpireBatchCommitsIff(s: Store, now: int, limit: nat, locked: set<Uuid>, replies: Uuid -> nat -> Reply)
    requires Live(s)
    ensures ExpireBatch(s, now, limit, locked, replies).Commit?
            <==> forall id | id in DueRows(s, now, limit, locked) ::
                   id in s.reservations && AllSettle(ToRelease, USER_CONTEXT, s.providers, s.reservations[id], replies(id))
  {
    DueRowsAreDue(s, now, limit, locked);
    hide DueRows, AllSettle, Live, ReleaseRows;
    ReleaseRowsCommitIff(s, DueRows(s, now, limit, locked), ReservationStatus.Expired, replies);
  }

  // ----- One reservation blocks the others -----

  /** An unfinished hold at an external provider that can no longer be called for this direction. */
  predicate Unserved(d: Direction, providers: Providers, a: Allocation) {
    var p := ProviderRow(providers, a.key.provider);
    a.status != DoneStatus(d) && p.kind.External? && (!Supports(d, p) || !p.http || a.reference.None?)
  }

  predicate SomeUnserved(d: Direction, providers: Providers, r: Reservation) {
    exists a | a in r.allocations :: Unserved(d, providers, a)
  }

  lemma UnservedNeverSettles(d: Direction, c: Context, providers: Providers, r: Reservation, replies: nat -> Reply)
    requires SomeUnserved(d, providers, r)
    ensures !AllSettle(d, c, providers, r, replies)
  {
    var a :| a in r.allocations && Unserved(d, providers, a);
    var j :| 0 <= j < |r.allocations| && r.allocations[j] == a;
    assert !SettlesAlone(d, c, ProviderRow(providers, r.allocations[j].key.provider), r.allocations[j], replies(j));
  }

  /** One reservation whose provider has lost support rolls back every reconciliation batch that contains it. */
  lemma UnservedRowBlocksBatch(s: Store, step: Step, id: Uuid)
    requires Live(s) && Possible(s, step) && step.ReconcileStep? && id in step.rows
    requires SomeUnserved(if s.reservations[id].status.Releasing? then ToRelease else ToConfirm, s.providers, s.reservations[id])
    ensures Attempt(s, step).Raise? && Apply(s, step) == s
  {
    var c := WorkerContext(step.now, step.maxAttempts, step.baseDelay);
    var r := s.reservations[id];
    assert Selectable(r, step.now, step.maxAttempts);
    UnservedNeverSettles(if r.status.Releasing? then ToRelease else ToConfirm, c, s.providers, r, step.batch(id));
    assert !RowSettles(s.providers, r, c, step.batch(id));
    hide RowSettles, ReconcileRows, Live;
    ReconcileRowsCommitIff(s, step.rows, c, step.batch);
  }

  /** And an overdue one that is first in line blocks expiry altogether: no batch that may take a row at all commits,
      whatever the providers answer, unless the row is locked by another transaction. */
  lemma FirstInLineBlocksExpiry(s: Store, id: Uuid, now: int, limit: nat, locked: set<Uuid>, replies: Uuid -> nat -> Reply)
    requires Live(s) && IsDue(s, id, now) && id !in locked && limit > 0
    requires forall x | IsDue(s, x, now) && x != id ::
               Before(RowKey(s.reservations[id].expiresAt, id), RowKey(s.reservations[x].expiresAt, x))
    requires SomeUnserved(ToRelease, s.providers, s.reservations[id])
    ensures ExpireBatch(s, now, limit, locked, replies).Raise?
  {
    FirstInLineIsTaken(s, id, now, limit, locked);
    UnservedNeverSettles(ToRelease, USER_CONTEXT, s.providers, s.reservations[id], replies(id));
    hide DueRows, ExpireBatch, AllSettle, Live;
    ExpireBatchCommitsIff(s, now, limit, locked, replies);
  }

  lemma FirstInLineIsTaken(s: Store, id: Uuid, now: int, limit: nat, locked: set<Uuid>)
    requires IsDue(s, id, now) && id !in locked && limit > 0
    requires forall x | IsDue(s, x, now) && x != id ::
               Before(RowKey(s.reservations[id].expiresAt, id), RowKey(s.reservations[x].expiresAt, x))
    ensures id in DueRows(s, now, limit, locked)
  {
    DueRowsAreDue(s, now, limit, locked);
    var rows := DueRows(s, now, limit, locked);
    hide DueRows;
    if id !in rows {
      assert rows[0] in rows;
      DueRowsOldestFirst(s, now, limit, locked, rows[0], id);
    }
  }
}
