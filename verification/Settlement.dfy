/** Confirming or releasing the allocations of one reservation, one provider operation at a time. */
module Settlement {
  import opened Types
  import opened Stock
  import opened Ledger

  /** Confirmation and release run the same protocol towards opposite ends. */
  datatype Direction = ToConfirm | ToRelease

  /** What the provider adapter answers; `Raised` is any exception other than a counted call failure.
      A release never answers `Rejected`; if one did, it would be treated like a temporary failure. */
  datatype Reply = Done | Rejected | TemporarilyUnavailable | Unknown | Raised

  datatype Schedule = Schedule(startedAt: int, baseDelay: int)

  datatype Context = Context(retryUnknown: bool, maxAttempts: nat, schedule: Option<Schedule>)

  const USER_CONTEXT := Context(false, 1, None)

  function WorkerContext(now: int, maxAttempts: nat, baseDelay: int): Context {
    Context(true, maxAttempts, Some(Schedule(now, baseDelay)))
  }

  function Pow2(n: nat): (p: nat)
    ensures p >= 1
  {
    if n == 0 then 1 else 2 * Pow2(n - 1)
  }

  function NextAttemptAt(c: Context, attempts: nat): Option<int> {
    if c.schedule.None? then None
    else
      var retry := if attempts > 2 then attempts - 2 else 0;
      Some(c.schedule.value.startedAt + c.schedule.value.baseDelay * Pow2(retry))
  }

  /** The wait after so many attempts, as a recurrence: the base delay up to the second attempt, then twice the last wait. */
  function Delay(base: int, attempts: nat): int {
    if attempts <= 2 then base else 2 * Delay(base, attempts - 1)
  }

  lemma {:induction false} DelayIsScheduled(c: Context, attempts: nat)
    ensures NextAttemptAt(c, attempts)
            == if c.schedule.None? then None else Some(c.schedule.value.startedAt + Delay(c.schedule.value.baseDelay, attempts))
    decreases attempts
  {
    if attempts > 2 && c.schedule.Some? {
      DelayIsScheduled(c, attempts - 1);
      DoubledDelay(c.schedule.value.baseDelay, Pow2(attempts - 3));
    }
  }

  lemma DoubledDelay(base: int, p: nat)
    ensures base * (2 * p) == 2 * (base * p)
  {
  }

  function OperationOf(d: Direction, a: Allocation): Option<Operation> {
    if d.ToConfirm? then a.confirmOp else a.releaseOp
  }

  function WithOperation(d: Direction, a: Allocation, op: Operation, status: AllocationStatus): Allocation {
    if d.ToConfirm? then a.(confirmOp := Some(op), status := status)
    else a.(releaseOp := Some(op), status := status)
  }

  function DoneStatus(d: Direction): AllocationStatus {
    if d.ToConfirm? then AllocationStatus.Confirmed else AllocationStatus.Released
  }

  function Refusal(d: Direction, kind: ProviderKind): Error {
    if d.ToConfirm? then InventoryConfirmationError(kind) else InventoryReleaseError(kind)
  }

  function Supports(d: Direction, p: Provider): bool {
    if d.ToConfirm? then p.confirm else p.release
  }

  /** An operation with an unknown outcome is left alone unless the worker still has attempts for it. */
  predicate Parked(op: Operation, c: Context) {
    op.status.Unknown? && (!c.retryUnknown || op.attempts >= c.maxAttempts)
  }

  function AttemptCount(op: Option<Operation>): nat {
    if op.None? then 1 else op.value.attempts + 1
  }

  function ReplyStatus(d: Direction, reply: Reply): AllocationStatus {
    match reply
    case Done => DoneStatus(d)
    case Unknown => AllocationStatus.Unknown
    case Rejected => if d.ToConfirm? then AllocationStatus.Failed else AllocationStatus.Held
    case _ => AllocationStatus.Held
  }

  function ReplyOperation(c: Context, attempts: nat, reply: Reply): Operation {
    match reply
    case Done => Operation(OperationStatus.Succeeded, attempts, None)
    case Unknown => Operation(OperationStatus.Unknown, attempts, NextAttemptAt(c, attempts))
    case _ => Operation(OperationStatus.Failed, attempts, None)
  }

  function SettleExternal(d: Direction, c: Context, p: Provider, a: Allocation, reply: Reply): Tx<Allocation> {
    var op := OperationOf(d, a);
    if !Supports(d, p) || !p.http || a.reference.None? then Raise(Refusal(d, External))
    else if op.Some? && op.value.status.Succeeded? then Commit(a.(status := DoneStatus(d)))
    else if op.Some? && Parked(op.value, c) then Commit(a.(status := AllocationStatus.Unknown))
    else if reply.Raised? then Raise(ProviderRaised)
    else Commit(WithOperation(d, a, ReplyOperation(c, AttemptCount(op), reply), ReplyStatus(d, reply)))
  }

  function SettleStock(d: Direction, offers: Offers, a: Allocation): Option<Offers> {
    if d.ToConfirm? then ConfirmHold(offers, a.key, a.quantity) else ReleaseHold(offers, a.key, a.quantity)
  }

  datatype Settled = Settled(offers: Offers, allocation: Allocation)

  function SettleOne(d: Direction, c: Context, p: Provider, offers: Offers, a: Allocation, reply: Reply): Tx<Settled> {
    if a.status == DoneStatus(d) then Commit(Settled(offers, a))
    else if p.kind.External? then
      match SettleExternal(d, c, p, a, reply)
      case Raise(e) => Raise(e)
      case Commit(b) => Commit(Settled(offers, b))
    else
      match SettleStock(d, offers, a)
      case None => Raise(Refusal(d, Internal))
      case Some(next) => Commit(Settled(next, a.(status := DoneStatus(d))))
  }

  /** The offers and the allocations of the reservation being settled. */
  datatype Books = Books(offers: Offers, allocations: seq<Allocation>)

  function SettleFrom(d: Direction, c: Context, providers: Providers, b: Books, i: nat, replies: nat -> Reply): Tx<Books>
    requires i <= |b.allocations|
    decreases |b.allocations| - i
  {
    if i == |b.allocations| then Commit(b)
    else
      var a := b.allocations[i];
      match SettleOne(d, c, ProviderRow(providers, a.key.provider), b.offers, a, replies(i))
      case Raise(e) => Raise(e)
      case Commit(s) =>
        SettleFrom(d, c, providers, Books(s.offers, b.allocations[i := s.allocation]), i + 1, replies)
  }

  function ConfirmedStatus(allocations: seq<Allocation>): ReservationStatus {
    if exists a | a in allocations :: a.status.Failed? then ReservationStatus.Failed
    else if exists a | a in allocations :: !a.status.Confirmed? then ReservationStatus.Confirming
    else ReservationStatus.Confirmed
  }

  predicate AllReleased(allocations: seq<Allocation>) {
    forall a | a in allocations :: a.status.Released?
  }

  datatype Account = Account(offers: Offers, reservation: Reservation)

  /** Confirms every allocation and derives the reservation's status. */
  function ConfirmAll(providers: Providers, offers: Offers, r: Reservation, c: Context, replies: nat -> Reply): Tx<Account> {
    match SettleFrom(ToConfirm, c, providers, Books(offers, r.allocations), 0, replies)
    case Raise(e) => Raise(e)
    case Commit(b) =>
      Commit(Account(b.offers, r.(allocations := b.allocations, status := ConfirmedStatus(b.allocations))))
  }

  /** Releases every allocation; the terminal status is reached only when all of them are released. */
  function ReleaseAll(providers: Providers, offers: Offers, r: Reservation, terminal: ReservationStatus,
                      c: Context, replies: nat -> Reply): Tx<Account> {
    match SettleFrom(ToRelease, c, providers, Books(offers, r.allocations), 0, replies)
    case Raise(e) => Raise(e)
    case Commit(b) =>
      Commit(Account(b.offers,
        if AllReleased(b.allocations) then r.(allocations := b.allocations, status := terminal, target := None)
        else r.(allocations := b.allocations, status := ReservationStatus.Releasing, target := Some(terminal))))
  }

  // ----- What one settlement does to each allocation, independently of the offers -----

  /** The allocation after its settlement commits. */
  ghost predicate SettledTo(d: Direction, c: Context, p: Provider, a: Allocation, reply: Reply, b: Allocation) {
    if a.status == DoneStatus(d) then b == a
    else if p.kind.External? then SettleExternal(d, c, p, a, reply) == Commit(b)
    else b == a.(status := DoneStatus(d))
  }

  /** Every allocation is settled exactly once, and no step touches another allocation. */
  lemma {:induction false} SettleFromPointwise(d: Direction, c: Context, providers: Providers, b: Books, i: nat, replies: nat -> Reply)
    requires i <= |b.allocations|
    requires SettleFrom(d, c, providers, b, i, replies).Commit?
    ensures var t := SettleFrom(d, c, providers, b, i, replies).value;
            && |t.allocations| == |b.allocations|
            && (forall j | 0 <= j < i :: t.allocations[j] == b.allocations[j])
            && (forall j | i <= j < |b.allocations| ::
                  SettledTo(d, c, ProviderRow(providers, b.allocations[j].key.provider), b.allocations[j], replies(j), t.allocations[j]))
    decreases |b.allocations| - i
  {
    if i < |b.allocations| {
      var a := b.allocations[i];
      var s := SettleOne(d, c, ProviderRow(providers, a.key.provider), b.offers, a, replies(i)).value;
      SettleFromPointwise(d, c, providers, Books(s.offers, b.allocations[i := s.allocation]), i + 1, replies);
    }
  }

  // ----- On the columns -----

  /** When an external hold cannot be settled: the provider lacks this very capability, cannot be reached, or the
      allocation has no reference; or it is called, which a succeeded and a parked operation spare, and raises. */
  lemma RefusalColumns(d: Direction, c: Context, p: Provider, a: Allocation, reply: Reply)
    ensures var x := SettleExternal(d, c, p, a, reply);
            var op := if d.ToConfirm? then a.confirmOp else a.releaseOp;
            var able := (if d.ToConfirm? then p.confirm else p.release) && p.http && a.reference.Some?;
            && (x == Raise(InventoryConfirmationError(External)) <==> d.ToConfirm? && !able)
            && (x == Raise(InventoryReleaseError(External)) <==> d.ToRelease? && !able)
            && (x == Raise(ProviderRaised) <==>
                  && able && reply.Raised?
                  && !(op.Some? && op.value.status.Succeeded?)
                  && !(op.Some? && op.value.status.Unknown? && (!c.retryUnknown || op.value.attempts >= c.maxAttempts)))
            && (x.Raise? ==> x.error == ProviderRaised
                             || x.error == if d.ToConfirm? then InventoryConfirmationError(External) else InventoryReleaseError(External))
  {
  }

  /** What one settlement does to one allocation, on its columns: `x` is its operation in this direction before, `y`
      after, and `able` whether the provider has the capability. Only a call counts as an attempt. */
  predicate Turn(p: Provider, able: bool, a: Allocation, x: Option<Operation>, b: Allocation, y: Option<Operation>,
                 done: AllocationStatus, rejected: AllocationStatus, c: Context, reply: Reply)
  {
    if a.status == done then b == a
    else if p.kind.Internal? then b.status == done && y == x
    else
      && able && p.http && a.reference.Some?
      && if x.Some? && x.value.status.Succeeded? then b.status == done && y == x
         else if x.Some? && x.value.status.Unknown? && (!c.retryUnknown || x.value.attempts >= c.maxAttempts)
         then b.status.Unknown? && y == x
         else
           && y.Some? && y.value.attempts == (if x.Some? then x.value.attempts + 1 else 1)
           && match reply
              case Raised => false
              case Done => b.status == done && y.value.status.Succeeded? && y.value.nextAttemptAt.None?
              case Rejected => b.status == rejected && y.value.status.Failed? && y.value.nextAttemptAt.None?
              case TemporarilyUnavailable => b.status.Held? && y.value.status.Failed? && y.value.nextAttemptAt.None?
              case Unknown =>
                && b.status.Unknown? && y.value.status.Unknown?
                && (c.schedule.None? <==> y.value.nextAttemptAt.None?)
                && (c.schedule.Some? ==> y.value.nextAttemptAt.value
                                         == c.schedule.value.startedAt + Delay(c.schedule.value.baseDelay, y.value.attempts))
  }

  predicate ConfirmTurn(p: Provider, a: Allocation, b: Allocation, c: Context, reply: Reply) {
    && b == a.(status := b.status, confirmOp := b.confirmOp)
    && Turn(p, p.confirm, a, a.confirmOp, b, b.confirmOp, AllocationStatus.Confirmed, AllocationStatus.Failed, c, reply)
  }

  predicate ReleaseTurn(p: Provider, a: Allocation, b: Allocation, c: Context, reply: Reply) {
    && b == a.(status := b.status, releaseOp := b.releaseOp)
    && Turn(p, p.release, a, a.releaseOp, b, b.releaseOp, AllocationStatus.Released, AllocationStatus.Held, c, reply)
  }

  lemma SettledIsTurn(d: Direction, c: Context, p: Provider, a: Allocation, reply: Reply, b: Allocation)
    requires SettledTo(d, c, p, a, reply, b)
    ensures if d.ToConfirm? then ConfirmTurn(p, a, b, c, reply) else ReleaseTurn(p, a, b, c, reply)
  {
    DelayIsScheduled(c, AttemptCount(OperationOf(d, a)));
    hide Delay, NextAttemptAt;
  }

  // ----- Stock conservation through a settlement -----

  /** Internal allocations that are neither held nor already at the end of this direction would
      be settled against units that are no longer theirs. */
  predicate Settleable(d: Direction, providers: Providers, a: Allocation) {
    IsInternal(providers, a.key.provider) ==> a.status.Held? || a.status == DoneStatus(d)
  }

  /** The offers back every unit that these allocations hold on internal stock. */
  ghost predicate Backed(providers: Providers, offers: Offers, allocations: seq<Allocation>) {
    forall k: OfferKey | IsInternal(providers, k.provider) ::
      AllocationsWeight(HeldAt(k), allocations) <= Reserved(offers, k)
  }

  /** Reserved units beyond these allocations' holds, and consumed plus remaining stock, agree at one offer. */
  ghost predicate SameBalanceAt(providers: Providers, b: Books, t: Books, k: OfferKey) {
    if IsInternal(providers, k.provider) then
      && Reserved(t.offers, k) - AllocationsWeight(HeldAt(k), t.allocations)
         == Reserved(b.offers, k) - AllocationsWeight(HeldAt(k), b.allocations)
      && OnHand(t.offers, k) + AllocationsWeight(ConfirmedAt(k), t.allocations)
         == OnHand(b.offers, k) + AllocationsWeight(ConfirmedAt(k), b.allocations)
    else Reserved(t.offers, k) == Reserved(b.offers, k)
  }

  ghost predicate SameBalance(providers: Providers, b: Books, t: Books) {
    forall k: OfferKey :: SameBalanceAt(providers, b, t, k)
  }

  lemma SettleOneBalanceAt(d: Direction, c: Context, providers: Providers, b: Books, i: nat, reply: Reply, k: OfferKey)
    requires i < |b.allocations|
    requires Settleable(d, providers, b.allocations[i])
    requires SettleOne(d, c, ProviderRow(providers, b.allocations[i].key.provider), b.offers, b.allocations[i], reply).Commit?
    ensures var s := SettleOne(d, c, ProviderRow(providers, b.allocations[i].key.provider), b.offers, b.allocations[i], reply).value;
            SameBalanceAt(providers, b, Books(s.offers, b.allocations[i := s.allocation]), k)
  {
    var a := b.allocations[i];
    var s := SettleOne(d, c, ProviderRow(providers, a.key.provider), b.offers, a, reply).value;
    UpdateAllocation(HeldAt(k), b.allocations, i, s.allocation);
    UpdateAllocation(ConfirmedAt(k), b.allocations, i, s.allocation);
  }

  lemma SettleOneNeverRefused(d: Direction, c: Context, providers: Providers, b: Books, i: nat, reply: Reply)
    requires i < |b.allocations|
    requires OffersOk(b.offers) && QuantitiesPositive(b.allocations)
    requires Settleable(d, providers, b.allocations[i])
    requires Backed(providers, b.offers, b.allocations)
    ensures match SettleOne(d, c, ProviderRow(providers, b.allocations[i].key.provider), b.offers, b.allocations[i], reply)
            case Raise(e) => e != Refusal(d, Internal)
            case Commit(s) => OffersOk(s.offers)
  {
    var a := b.allocations[i];
    assert a in b.allocations;
    AllocationsWeightBounds(HeldAt(a.key), b.allocations);
  }

  lemma SameBalanceComposes(providers: Providers, b: Books, m: Books, t: Books)
    requires SameBalance(providers, b, m) && SameBalance(providers, m, t)
    ensures SameBalance(providers, b, t)
  {
    forall k: OfferKey ensures SameBalanceAt(providers, b, t, k) {
      assert SameBalanceAt(providers, b, m, k) && SameBalanceAt(providers, m, t, k);
    }
  }

  lemma SameBalanceKeepsBacked(providers: Providers, b: Books, t: Books)
    requires SameBalance(providers, b, t) && Backed(providers, b.offers, b.allocations)
    ensures Backed(providers, t.offers, t.allocations)
  {
    forall k: OfferKey | IsInternal(providers, k.provider)
      ensures AllocationsWeight(HeldAt(k), t.allocations) <= Reserved(t.offers, k)
    {
      assert SameBalanceAt(providers, b, t, k);
    }
  }

  /** One turn of the settlement loop. */
  lemma SettleOneBalance(d: Direction, c: Context, providers: Providers, b: Books, i: nat, reply: Reply)
    requires i < |b.allocations| && QuantitiesPositive(b.allocations)
    requires Settleable(d, providers, b.allocations[i])
    requires SettleOne(d, c, ProviderRow(providers, b.allocations[i].key.provider), b.offers, b.allocations[i], reply).Commit?
    ensures var s := SettleOne(d, c, ProviderRow(providers, b.allocations[i].key.provider), b.offers, b.allocations[i], reply).value;
            var next := Books(s.offers, b.allocations[i := s.allocation]);
            QuantitiesPositive(next.allocations) && SameBalance(providers, b, next)
  {
    var a := b.allocations[i];
    var s := SettleOne(d, c, ProviderRow(providers, a.key.provider), b.offers, a, reply).value;
    var next := Books(s.offers, b.allocations[i := s.allocation]);
    assert s.allocation.quantity == a.quantity && a in b.allocations;
    forall k: OfferKey ensures SameBalanceAt(providers, b, next, k) {
      SettleOneBalanceAt(d, c, providers, b, i, reply, k);
    }
  }

  /** Settling never fails on internal stock, and keeps the balance of every offer. */
  lemma {:induction false} SettleFromBalance(d: Direction, c: Context, providers: Providers, b: Books, i: nat, replies: nat -> Reply)
    requires i <= |b.allocations|
    requires OffersOk(b.offers) && QuantitiesPositive(b.allocations)
    requires forall j | i <= j < |b.allocations| :: Settleable(d, providers, b.allocations[j])
    requires Backed(providers, b.offers, b.allocations)
    ensures match SettleFrom(d, c, providers, b, i, replies)
            case Raise(e) => e != Refusal(d, Internal)
            case Commit(t) => OffersOk(t.offers) && SameBalance(providers, b, t)
    decreases |b.allocations| - i
  {
    if i < |b.allocations| {
      hide SettleOne, Settleable, Backed, OffersOk, QuantitiesPositive, SameBalance;
      var a := b.allocations[i];
      SettleOneNeverRefused(d, c, providers, b, i, replies(i));
      match SettleOne(d, c, ProviderRow(providers, a.key.provider), b.offers, a, replies(i)) {
        case Raise(e) =>
        case Commit(s) =>
          var next := Books(s.offers, b.allocations[i := s.allocation]);
          SettleOneBalance(d, c, providers, b, i, replies(i));
          SameBalanceKeepsBacked(providers, b, next);
          SettleFromBalance(d, c, providers, next, i + 1, replies);
          if SettleFrom(d, c, providers, b, i, replies).Commit? {
            SameBalanceComposes(providers, b, next, SettleFrom(d, c, providers, b, i, replies).value);
          }
      }
    }
  }

  /** Does this allocation settle, seen on its own? Internal stock is not what stops it. */
  predicate SettlesAlone(d: Direction, c: Context, p: Provider, a: Allocation, reply: Reply) {
    a.status == DoneStatus(d) || p.kind.Internal? || SettleExternal(d, c, p, a, reply).Commit?
  }

  /** On the columns: nothing is left to do, the stock is internal, or the provider can be called and does not raise
      if it is. */
  lemma SettlesAloneColumns(d: Direction, c: Context, p: Provider, a: Allocation, reply: Reply)
    ensures SettlesAlone(d, c, p, a, reply)
            <==> var op := if d.ToConfirm? then a.confirmOp else a.releaseOp;
                 || a.status == (if d.ToConfirm? then AllocationStatus.Confirmed else AllocationStatus.Released)
                 || p.kind.Internal?
                 || ((if d.ToConfirm? then p.confirm else p.release) && p.http && a.reference.Some?
                     && (|| !reply.Raised?
                         || (op.Some? && op.value.status.Succeeded?)
                         || (op.Some? && op.value.status.Unknown? && (!c.retryUnknown || op.value.attempts >= c.maxAttempts))))
  {
  }

  /** A settlement commits exactly when each of its allocations settles on its own. */
  lemma {:induction false} SettleFromCommitsIff(d: Direction, c: Context, providers: Providers, b: Books, i: nat, replies: nat -> Reply)
    requires i <= |b.allocations|
    requires OffersOk(b.offers) && QuantitiesPositive(b.allocations)
    requires forall j | i <= j < |b.allocations| :: Settleable(d, providers, b.allocations[j])
    requires Backed(providers, b.offers, b.allocations)
    ensures SettleFrom(d, c, providers, b, i, replies).Commit?
            <==> forall j | i <= j < |b.allocations| ::
                   SettlesAlone(d, c, ProviderRow(providers, b.allocations[j].key.provider), b.allocations[j], replies(j))
    decreases |b.allocations| - i
  {
    if i < |b.allocations| {
      hide SettleOne, SettlesAlone, Settleable, Backed, OffersOk, QuantitiesPositive, SameBalance;
      var a := b.allocations[i];
      SettleOneNeverRefused(d, c, providers, b, i, replies(i));
      SettleOneCommitsIff(d, c, providers, b, i, replies(i));
      match SettleOne(d, c, ProviderRow(providers, a.key.provider), b.offers, a, replies(i)) {
        case Raise(_) =>
        case Commit(s) =>
          var next := Books(s.offers, b.allocations[i := s.allocation]);
          SettleOneBalance(d, c, providers, b, i, replies(i));
          SameBalanceKeepsBacked(providers, b, next);
          SettleFromCommitsIff(d, c, providers, next, i + 1, replies);
          assert forall j | i < j < |b.allocations| :: next.allocations[j] == b.allocations[j];
      }
    }
  }

  lemma SettleOneCommitsIff(d: Direction, c: Context, providers: Providers, b: Books, i: nat, reply: Reply)
    requires i < |b.allocations|
    requires OffersOk(b.offers) && QuantitiesPositive(b.allocations)
    requires Settleable(d, providers, b.allocations[i])
    requires Backed(providers, b.offers, b.allocations)
    ensures SettleOne(d, c, ProviderRow(providers, b.allocations[i].key.provider), b.offers, b.allocations[i], reply).Commit?
            <==> SettlesAlone(d, c, ProviderRow(providers, b.allocations[i].key.provider), b.allocations[i], reply)
  {
    SettleOneNeverRefused(d, c, providers, b, i, reply);
  }

  /** Whatever the allocations' statuses, the guarded updates keep every offer within bounds. */
  lemma {:induction false} SettleFromBounds(d: Direction, c: Context, providers: Providers, b: Books, i: nat, replies: nat -> Reply)
    requires i <= |b.allocations|
    requires OffersOk(b.offers) && QuantitiesPositive(b.allocations)
    requires SettleFrom(d, c, providers, b, i, replies).Commit?
    ensures var t := SettleFrom(d, c, providers, b, i, replies).value;
            && OffersOk(t.offers) && t.offers.Keys == b.offers.Keys
            && (forall k | k in b.offers && !IsInternal(providers, k.provider) :: t.offers[k] == b.offers[k])
    decreases |b.allocations| - i
  {
    if i < |b.allocations| {
      var a := b.allocations[i];
      assert a in b.allocations;
      var s := SettleOne(d, c, ProviderRow(providers, a.key.provider), b.offers, a, replies(i)).value;
      var next := Books(s.offers, b.allocations[i := s.allocation]);
      assert s.allocation.quantity == a.quantity;
      SettleFromBounds(d, c, providers, next, i + 1, replies);
    }
  }

  // ----- The loops' flags -----

  predicate FailedBefore(s: seq<Allocation>, i: nat) {
    exists j | 0 <= j < i && j < |s| :: s[j].status.Failed?
  }

  predicate PendingBefore(s: seq<Allocation>, i: nat) {
    exists j | 0 <= j < i && j < |s| :: !s[j].status.Failed? && !s[j].status.Confirmed?
  }

  predicate UnreleasedBefore(s: seq<Allocation>, i: nat) {
    exists j | 0 <= j < i && j < |s| :: !s[j].status.Released?
  }

  lemma FlagsAdvance(s: seq<Allocation>, i: nat, a: Allocation)
    requires i < |s|
    ensures var t := s[i := a];
            && (FailedBefore(t, i + 1) <==> FailedBefore(s, i) || a.status.Failed?)
            && (PendingBefore(t, i + 1) <==> PendingBefore(s, i) || (!a.status.Failed? && !a.status.Confirmed?))
            && (UnreleasedBefore(t, i + 1) <==> UnreleasedBefore(s, i) || !a.status.Released?)
  {
    var t := s[i := a];
    assert forall j | 0 <= j < i :: t[j] == s[j];
    assert t[i] == a;
  }

  /** The flags at the end of the loop decide the status. */
  lemma FlagsDecide(s: seq<Allocation>)
    ensures ConfirmedStatus(s) == if FailedBefore(s, |s|) then ReservationStatus.Failed
                                  else if PendingBefore(s, |s|) then ReservationStatus.Confirming
                                  else ReservationStatus.Confirmed
    ensures AllReleased(s) <==> !UnreleasedBefore(s, |s|)
  {
  }
}
