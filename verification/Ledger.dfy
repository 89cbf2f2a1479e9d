/** Sums over allocations: of one reservation, and of the whole store. */
module Ledger {
  import opened Types

  /** What a sum counts. */
  datatype Gauge =
    | HeldAt(key: OfferKey)                  // units of HELD allocations on an offer
    | ConfirmedAt(key: OfferKey)             // units of CONFIRMED allocations on an offer
    | RowsAt(key: OfferKey)                  // number of HELD allocations on an offer
    | DueHeldAt(key: OfferKey, now: int)     // the first, over overdue PENDING reservations only
    | DueRowsAt(key: OfferKey, now: int)     // the third, over overdue PENDING reservations only
    | AttemptsLeft(max: nat)                 // provider attempts still below the cap

  predicate Due(r: Reservation, now: int) {
    r.status.Pending? && r.expiresAt <= now
  }

  function OperationAttemptsLeft(op: Option<Operation>, max: nat): nat {
    if op.None? then max else if op.value.attempts >= max then 0 else max - op.value.attempts
  }

  function AllocationWeight(g: Gauge, a: Allocation): int {
    match g
    case HeldAt(k) => if a.status.Held? && a.key == k then a.quantity else 0
    case DueHeldAt(k, _) => if a.status.Held? && a.key == k then a.quantity else 0
    case RowsAt(k) => if a.status.Held? && a.key == k then 1 else 0
    case DueRowsAt(k, _) => if a.status.Held? && a.key == k then 1 else 0
    case ConfirmedAt(k) => if a.status.Confirmed? && a.key == k then a.quantity else 0
    case AttemptsLeft(max) => OperationAttemptsLeft(a.confirmOp, max) + OperationAttemptsLeft(a.releaseOp, max)
  }

  function AllocationsWeight(g: Gauge, s: seq<Allocation>): int {
    if s == [] then 0 else AllocationWeight(g, s[0]) + AllocationsWeight(g, s[1..])
  }

  function Weight(g: Gauge, r: Reservation): int {
    match g
    case DueHeldAt(k, now) => if Due(r, now) then AllocationsWeight(HeldAt(k), r.allocations) else 0
    case DueRowsAt(k, now) => if Due(r, now) then AllocationsWeight(RowsAt(k), r.allocations) else 0
    case _ => AllocationsWeight(g, r.allocations)
  }

  ghost function AnyId(rs: Reservations): (id: Uuid)
    requires rs != map[]
    ensures id in rs
  {
    var id :| id in rs; id
  }

  ghost function Total(g: Gauge, rs: Reservations): int
    decreases |rs|
  {
    if rs == map[] then 0
    else
      var id := AnyId(rs);
      Weight(g, rs[id]) + Total(g, rs - {id})
  }

  lemma {:induction false} UpdateAllocation(g: Gauge, s: seq<Allocation>, i: nat, a: Allocation)
    requires i < |s|
    ensures AllocationsWeight(g, s[i := a]) == AllocationsWeight(g, s) - AllocationWeight(g, s[i]) + AllocationWeight(g, a)
  {
    if i == 0 {
      assert s[i := a][1..] == s[1..];
    } else {
      assert s[i := a][1..] == s[1..][i - 1 := a];
      UpdateAllocation(g, s[1..], i - 1, a);
    }
  }

  lemma {:induction false} AppendAllocation(g: Gauge, s: seq<Allocation>, a: Allocation)
    ensures AllocationsWeight(g, s + [a]) == AllocationsWeight(g, s) + AllocationWeight(g, a)
  {
    if s == [] {
      assert s + [a] == [a] && [a][1..] == [];
    } else {
      assert (s + [a])[1..] == s[1..] + [a];
      AppendAllocation(g, s[1..], a);
    }
  }

  /** The choice of which row to count first does not matter. */
  lemma {:induction false} TotalSplit(g: Gauge, rs: Reservations, id: Uuid)
    requires id in rs
    ensures Total(g, rs) == Weight(g, rs[id]) + Total(g, rs - {id})
    decreases |rs|
  {
    var first := AnyId(rs);
    if first != id {
      TotalSplit(g, rs - {first}, id);
      TotalSplit(g, rs - {id}, first);
      assert rs - {first} - {id} == rs - {id} - {first};
    }
  }

  /** Writing one row moves a total by exactly that row's change. */
  lemma TotalUpdate(g: Gauge, rs: Reservations, id: Uuid, r: Reservation)
    ensures Total(g, rs[id := r]) ==
            Total(g, rs) - (if id in rs then Weight(g, rs[id]) else 0) + Weight(g, r)
  {
    TotalSplit(g, rs[id := r], id);
    if id in rs {
      TotalSplit(g, rs, id);
      assert rs[id := r] - {id} == rs - {id};
    } else {
      assert rs[id := r] - {id} == rs;
    }
  }

  predicate QuantitiesPositive(s: seq<Allocation>) {
    forall a | a in s :: a.quantity > 0
  }

  lemma {:induction false} AllocationsWeightBounds(g: Gauge, s: seq<Allocation>)
    requires QuantitiesPositive(s)
    ensures AllocationsWeight(g, s) >= 0
    ensures forall i | 0 <= i < |s| :: AllocationWeight(g, s[i]) <= AllocationsWeight(g, s)
  {
    if s != [] {
      assert forall a | a in s[1..] :: a in s;
      AllocationsWeightBounds(g, s[1..]);
      forall i | 0 <= i < |s| ensures AllocationWeight(g, s[i]) <= AllocationsWeight(g, s) {
        if i > 0 { assert s[i] == s[1..][i - 1]; }
      }
    }
  }

  /** A total of non-negative parts is at least each part. */
  lemma {:induction false} TotalBounds(g: Gauge, rs: Reservations)
    requires forall id | id in rs :: QuantitiesPositive(rs[id].allocations)
    ensures Total(g, rs) >= 0
    ensures forall id | id in rs :: 0 <= Weight(g, rs[id]) <= Total(g, rs)
    decreases |rs|
  {
    forall id | id in rs ensures 0 <= Weight(g, rs[id]) {
      AllocationsWeightBounds(if g.DueHeldAt? then HeldAt(g.key) else if g.DueRowsAt? then RowsAt(g.key) else g, rs[id].allocations);
    }
    if rs != map[] {
      TotalBounds(g, rs - {AnyId(rs)});
      forall id | id in rs ensures Weight(g, rs[id]) <= Total(g, rs) {
        TotalSplit(g, rs, id);
        TotalBounds(g, rs - {id});
      }
    }
  }

  /** A gauge that reads zero everywhere sums to zero. */
  lemma {:induction false} TotalZero(g: Gauge, rs: Reservations)
    requires forall id | id in rs :: Weight(g, rs[id]) == 0
    ensures Total(g, rs) == 0
    decreases |rs|
  {
    if rs != map[] { TotalZero(g, rs - {AnyId(rs)}); }
  }
}
