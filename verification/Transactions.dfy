/** Every transaction of the service as a function from the store to a committed store or a raised error. */
module Transactions {
  import opened Types
  import opened Rows
  import opened Stock
  import opened Ledger
  import opened Settlement
  import Routing
  import Fingerprint

  // ----- Create -----

  datatype CreateRequest = CreateRequest(id: Uuid, user: Uuid, key: string, items: seq<Item>, now: int, ttl: int)

  function Draft(q: CreateRequest): Reservation {
    Reservation(q.id, q.user, q.key, Fingerprint.Canonical(q.items), q.items, q.now, q.now + q.ttl,
                ReservationStatus.Pending, None, [])
  }

  /** A reservation as the domain starts it. */
  predicate IsDraft(r: Reservation) {
    r.status.Pending? && r.target.None? && r.allocations == []
  }

  lemma DraftIsDraft(q: CreateRequest)
    ensures IsDraft(Draft(q))
  {
  }

  predicate OwnsKey(r: Reservation, user: Uuid, key: string) {
    r.user == user && r.key == key
  }

  predicate KeyTaken(rs: Reservations, user: Uuid, key: string) {
    exists id | id in rs :: OwnsKey(rs[id], user, key)
  }

  /** An item with any other quantity cannot be built, so it reaches no request. */
  predicate QuantitiesValid(items: seq<Item>) {
    forall item | item in items :: item.quantity > 0
  }

  /** What the domain refuses without looking at the store. */
  function DraftError(q: Reservation): Option<Error> {
    if !QuantitiesValid(q.items) then Some(InvalidReservationQuantityError)
    else if q.items == [] then Some(EmptyReservationError)
    else if q.expiresAt <= q.createdAt then Some(InvalidReservationTtlError)
    else None
  }

  /** Domain validation first, then the constraints the INSERT meets, reservation row before item rows. */
  function InsertError(s: Store, q: Reservation): Option<Error> {
    if DraftError(q).Some? then DraftError(q)
    else if KeyTaken(s.reservations, q.user, q.key) then Some(ConcurrentReservationCreationError)
    else if q.key == "" || q.id in s.reservations then Some(IntegrityError)
    else if !Fingerprint.DistinctProducts(q.items) then Some(IntegrityError)
    else if exists item | item in q.items :: item.product !in s.products || item.provider !in s.providers then Some(IntegrityError)
    else None
  }

  datatype Holding = Holding(offers: Offers, allocations: seq<Allocation>, complete: bool)

  function HeldAllocation(item: Item, hold: Routing.ProviderHold): Allocation {
    Allocation(OfferKey(item.product, hold.provider), item.quantity, AllocationStatus.Held, hold.reference, None, None)
  }

  /** Holds item after item and stops at the first one nobody can hold. */
  function HoldItems(providers: Providers, offers: Offers, items: seq<Item>, i: nat, allocations: seq<Allocation>,
                     replies: nat -> Uuid -> Routing.CandidateReply): Tx<Holding>
    requires i <= |items|
    decreases |items| - i
  {
    if i == |items| then Commit(Holding(offers, allocations, true))
    else
      var routing := Routing.RouteItem(providers, offers, items[i], replies(i));
      match routing.end
      case RoutedTo(hold) =>
        HoldItems(providers, routing.offers, items, i + 1, allocations + [HeldAllocation(items[i], hold)], replies)
      case Exhausted => Commit(Holding(routing.offers, allocations, false))
      case UnknownAt(_) => Raise(UnknownProviderOutcomeError)
      case RaisedAt(_) => Raise(ProviderRaised)
  }

  /** One turn of the holding loop. */
  lemma HoldItemsTurn(providers: Providers, offers: Offers, items: seq<Item>, i: nat, allocations: seq<Allocation>,
                      replies: nat -> Uuid -> Routing.CandidateReply, routing: Routing.Routing)
    requires i < |items| && routing == Routing.RouteItem(providers, offers, items[i], replies(i))
    ensures HoldItems(providers, offers, items, i, allocations, replies)
            == match routing.end
               case RoutedTo(hold) => HoldItems(providers, routing.offers, items, i + 1, allocations + [HeldAllocation(items[i], hold)], replies)
               case Exhausted => Commit(Holding(routing.offers, allocations, false))
               case UnknownAt(_) => Raise(UnknownProviderOutcomeError)
               case RaisedAt(_) => Raise(ProviderRaised)
  {
  }

  datatype Added = Added(store: Store, held: bool)

  function Put(s: Store, id: Uuid, account: Account): Store {
    s.(offers := account.offers, reservations := s.reservations[id := account.reservation])
  }

  function AddWithHold(s: Store, q: Reservation, holds: nat -> Uuid -> Routing.CandidateReply, releases: nat -> Reply): Tx<Added> {
    match InsertError(s, q)
    case Some(e) => Raise(e)
    case None =>
      match HoldItems(s.providers, s.offers, q.items, 0, [], holds)
      case Raise(e) => Raise(e)
      case Commit(h) =>
        var r := q.(allocations := h.allocations);
        if h.complete then Commit(Added(Put(s, q.id, Account(h.offers, r)), true))
        else
          match ReleaseAll(s.providers, h.offers, r, ReservationStatus.Failed, USER_CONTEXT, releases)
          case Raise(e) => Raise(e)
          case Commit(account) => Commit(Added(Put(s, q.id, account), false))
  }

  /** The store between holding and compensating: the new row with the allocations made so far. */
  function Holdings(s: Store, q: Reservation, h: Holding): Store {
    Put(s, q.id, Account(h.offers, q.(allocations := h.allocations)))
  }

  /** Compensation is an ordinary release of the new row. */
  lemma AddWithHoldCompensates(s: Store, q: Reservation, holds: nat -> Uuid -> Routing.CandidateReply, releases: nat -> Reply, h: Holding)
    requires InsertError(s, q).None? && HoldItems(s.providers, s.offers, q.items, 0, [], holds) == Commit(h)
    ensures h.complete ==> AddWithHold(s, q, holds, releases) == Commit(Added(Holdings(s, q, h), true))
    ensures !h.complete ==>
              AddWithHold(s, q, holds, releases)
              == match ReleaseRow(Holdings(s, q, h), q.id, ReservationStatus.Failed, USER_CONTEXT, releases)
                 case Raise(e) => Raise(e)
                 case Commit(t) => Commit(Added(t, false))
  {
    if !h.complete {
      var r := q.(allocations := h.allocations);
      match ReleaseAll(s.providers, h.offers, r, ReservationStatus.Failed, USER_CONTEXT, releases) {
        case Raise(_) =>
        case Commit(account) =>
          assert s.reservations[q.id := r][q.id := account.reservation] == s.reservations[q.id := account.reservation];
      }
    }
  }

  lemma AddWithHoldRaises(s: Store, q: Reservation, holds: nat -> Uuid -> Routing.CandidateReply, releases: nat -> Reply, e: Error)
    requires InsertError(s, q).None? && HoldItems(s.providers, s.offers, q.items, 0, [], holds) == Raise(e)
    ensures AddWithHold(s, q, holds, releases) == Raise(e)
  {
  }

  /** A key that is already used answers from the stored reservation. */
  function ResolveRetry(existing: Reservation, fingerprint: string): Tx<Reservation> {
    if existing.fingerprint != fingerprint then Raise(IdempotencyConflictError)
    else if existing.status.Failed? || existing.target == Some(ReservationStatus.Failed) then Raise(InsufficientInventoryError)
    else Commit(existing)
  }

  ghost function FindByKey(rs: Reservations, user: Uuid, key: string): (id: Uuid)
    requires KeyTaken(rs, user, key)
    ensures id in rs && OwnsKey(rs[id], user, key)
  {
    var id :| id in rs && OwnsKey(rs[id], user, key); id
  }

  datatype Created = Created(store: Store, answer: Tx<Reservation>)

  /** The service's create, run without interference between its read and its insert. */
  ghost function Create(s: Store, q: CreateRequest, holds: nat -> Uuid -> Routing.CandidateReply, releases: nat -> Reply): Created {
    if !QuantitiesValid(q.items) then Created(s, Raise(InvalidReservationQuantityError))
    else if KeyTaken(s.reservations, q.user, q.key) then
      Created(s, ResolveRetry(s.reservations[FindByKey(s.reservations, q.user, q.key)], Fingerprint.Canonical(q.items)))
    else
      match AddWithHold(s, Draft(q), holds, releases)
      case Raise(e) => Created(s, Raise(e))
      case Commit(added) =>
        Created(added.store, if added.held then Commit(Draft(q)) else Raise(InsufficientInventoryError))
  }

  /** Under a free key, create is the holding transaction. */
  lemma CreateWhenFree(s: Store, q: CreateRequest, holds: nat -> Uuid -> Routing.CandidateReply, releases: nat -> Reply)
    requires QuantitiesValid(q.items) && !KeyTaken(s.reservations, q.user, q.key)
    ensures Create(s, q, holds, releases)
            == match AddWithHold(s, Draft(q), holds, releases)
               case Raise(e) => Created(s, Raise(e))
               case Commit(added) => Created(added.store, if added.held then Commit(Draft(q)) else Raise(InsufficientInventoryError))
  {
    hide AddWithHold;
  }

  /** Otherwise it only answers. */
  lemma CreateOtherwise(s: Store, q: CreateRequest, holds: nat -> Uuid -> Routing.CandidateReply, releases: nat -> Reply)
    requires !QuantitiesValid(q.items) || KeyTaken(s.reservations, q.user, q.key)
    ensures var x := Create(s, q, holds, releases);
            && x.store == s
            && (x.answer.Raise? ==> x.answer.error in {InvalidReservationQuantityError, IdempotencyConflictError, InsufficientInventoryError})
  {
    hide AddWithHold, Fingerprint.Canonical;
  }

  // ----- Confirm, cancel -----

  predicate HasOrder(orders: seq<Order>, id: Uuid) {
    exists o | o in orders :: o.reservation == id
  }

  function OrderLines(items: seq<Item>): (lines: seq<OrderLine>)
    ensures |lines| == |items|
    ensures forall i | 0 <= i < |items| :: lines[i] == OrderLine(items[i].product, items[i].quantity)
  {
    seq(|items|, i requires 0 <= i < |items| => OrderLine(items[i].product, items[i].quantity))
  }

  function EnsureOrder(orders: seq<Order>, r: Reservation): seq<Order> {
    if HasOrder(orders, r.id) then orders else orders + [Order(r.id, r.user, OrderLines(r.items))]
  }

  function ConfirmRow(s: Store, id: Uuid, c: Context, replies: nat -> Reply): Tx<Store>
    requires id in s.reservations
  {
    match ConfirmAll(s.providers, s.offers, s.reservations[id], c, replies)
    case Raise(e) => Raise(e)
    case Commit(account) =>
      var next := Put(s, id, account);
      Commit(if account.reservation.status.Confirmed? then next.(orders := EnsureOrder(s.orders, account.reservation)) else next)
  }

  function ReleaseRow(s: Store, id: Uuid, terminal: ReservationStatus, c: Context, replies: nat -> Reply): Tx<Store>
    requires id in s.reservations
  {
    match ReleaseAll(s.providers, s.offers, s.reservations[id], terminal, c, replies)
    case Raise(e) => Raise(e)
    case Commit(account) => Commit(Put(s, id, account))
  }

  predicate Owns(s: Store, id: Uuid, user: Uuid) {
    id in s.reservations && s.reservations[id].user == user
  }

  /** An unknown id, or another user's, is answered with nothing. */
  function Lookup(s: Store, id: Uuid, user: Uuid): Option<Reservation> {
    if Owns(s, id, user) then Some(s.reservations[id]) else None
  }

  function Confirm(s: Store, id: Uuid, user: Uuid, replies: nat -> Reply): Tx<Store> {
    if !Owns(s, id, user) then Commit(s)
    else
      match s.reservations[id].status
      case Confirmed => Commit(s.(orders := EnsureOrder(s.orders, s.reservations[id])))
      case Cancelled => Raise(ReservationNotConfirmableError)
      case _ => ConfirmRow(s, id, USER_CONTEXT, replies)
  }

  function Cancel(s: Store, id: Uuid, user: Uuid, replies: nat -> Reply): Tx<Store> {
    if !Owns(s, id, user) then Commit(s)
    else
      match s.reservations[id].status
      case Cancelled => Commit(s)
      case Confirmed => Raise(ReservationNotCancellableError)
      case Confirming => Raise(ReservationReconciliationRequiredError)
      case _ => ReleaseRow(s, id, ReservationStatus.Cancelled, USER_CONTEXT, replies)
  }

  // ----- Expiry -----

  predicate IsDue(s: Store, id: Uuid, now: int) {
    id in s.reservations && Due(s.reservations[id], now)
  }

  function DueKeys(s: Store, now: int, locked: set<Uuid>): set<RowKey> {
    set id | id in s.reservations && IsDue(s, id, now) && id !in locked :: RowKey(s.reservations[id].expiresAt, id)
  }

  function Min(a: nat, b: nat): nat { if a <= b then a else b }

  /** Oldest expiry first; rows locked by another transaction are skipped. */
  function DueRows(s: Store, now: int, limit: nat, locked: set<Uuid>): seq<Uuid> {
    var rows := Ids(OrderBy(DueKeys(s, now, locked)));
    rows[..Min(limit, |rows|)]
  }

  function ReleaseRows(s: Store, rows: seq<Uuid>, terminal: ReservationStatus, replies: Uuid -> nat -> Reply): Tx<Store>
    requires forall id | id in rows :: id in s.reservations
    decreases |rows|
  {
    if rows == [] then Commit(s)
    else
      match ReleaseRow(s, rows[0], terminal, USER_CONTEXT, replies(rows[0]))
      case Raise(e) => Raise(e)
      case Commit(next) => ReleaseRows(next, rows[1..], terminal, replies)
  }

  /** The sorted rows are the due, unlocked reservations, each once, by expiry. */
  lemma DueOrder(s: Store, now: int, locked: set<Uuid>)
    ensures var all := OrderBy(DueKeys(s, now, locked));
            && (forall i | 0 <= i < |all| ::
                  IsDue(s, all[i].id, now) && all[i].id !in locked && all[i].rank == s.reservations[all[i].id].expiresAt)
            && (forall id | IsDue(s, id, now) && id !in locked :: id in Ids(all))
  {
    var keys := DueKeys(s, now, locked);
    OrderByRows(keys);
    var all := OrderBy(keys);
    forall i | 0 <= i < |all|
      ensures IsDue(s, all[i].id, now) && all[i].id !in locked && all[i].rank == s.reservations[all[i].id].expiresAt
    {
      assert all[i] in keys;
    }
    forall id | IsDue(s, id, now) && id !in locked ensures id in Ids(all) {
      var row := RowKey(s.reservations[id].expiresAt, id);
      assert row in keys && row in all;
      var i :| 0 <= i < |all| && all[i] == row;
      assert Ids(all)[i] == id;
    }
  }

  lemma DueRowsAreDue(s: Store, now: int, limit: nat, locked: set<Uuid>)
    ensures var rows := DueRows(s, now, limit, locked);
            && |rows| <= limit
            && Routing.Distinct(rows)
            && (forall id | id in rows :: IsDue(s, id, now) && id !in locked)
            && (|rows| < limit ==> forall id | IsDue(s, id, now) && id !in locked :: id in rows)
  {
    DueOrder(s, now, locked);
    OrderByRows(DueKeys(s, now, locked));
    var all := OrderBy(DueKeys(s, now, locked));
    var rows := DueRows(s, now, limit, locked);
    forall i, j | 0 <= i < j < |rows| ensures rows[i] != rows[j] {
      assert Before(all[i], all[j]) && rows[i] == all[i].id && rows[j] == all[j].id;
    }
    if |rows| < limit { assert rows == Ids(all); }
  }

  /** No due row is passed over for one that comes later in (expiry time, id) order. */
  lemma DueRowsOldestFirst(s: Store, now: int, limit: nat, locked: set<Uuid>, taken: Uuid, left: Uuid)
    requires taken in DueRows(s, now, limit, locked)
    requires IsDue(s, left, now) && left !in locked && left !in DueRows(s, now, limit, locked)
    ensures IsDue(s, taken, now)
    ensures Before(RowKey(s.reservations[taken].expiresAt, taken), RowKey(s.reservations[left].expiresAt, left))
  {
    DueOrder(s, now, locked);
    OrderByRows(DueKeys(s, now, locked));
    var all := OrderBy(DueKeys(s, now, locked));
    var rows := DueRows(s, now, limit, locked);
    var i, j := LimitKeepsFirst(all, |rows|, taken, left);
  }

  function ExpireBatch(s: Store, now: int, limit: nat, locked: set<Uuid>, replies: Uuid -> nat -> Reply): Tx<Store> {
    DueRowsAreDue(s, now, limit, locked);
    ReleaseRows(s, DueRows(s, now, limit, locked), ReservationStatus.Expired, replies)
  }

  // ----- Reconciliation -----

  predicate RetryDue(op: Option<Operation>, now: int, maxAttempts: nat) {
    && op.Some? && op.value.status.Unknown? && op.value.attempts < maxAttempts
    && (op.value.nextAttemptAt.None? || op.value.nextAttemptAt.value <= now)
  }

  /** The worker's query: something in the reservation's current direction is unknown, below the cap and due. */
  predicate Selectable(r: Reservation, now: int, maxAttempts: nat) {
    || (r.status.Releasing? && r.target in {Some(ReservationStatus.Cancelled), Some(ReservationStatus.Expired), Some(ReservationStatus.Failed)}
        && exists a | a in r.allocations :: RetryDue(a.releaseOp, now, maxAttempts))
    || (r.status.Confirming? && exists a | a in r.allocations :: RetryDue(a.confirmOp, now, maxAttempts))
  }

  /** A result of the worker's query. It is ordered by a database timestamp that the model does not have,
      so any choice of `limit` selectable rows is a result; fewer come back only when no more exist. */
  predicate SelectedRows(s: Store, now: int, limit: nat, maxAttempts: nat, locked: set<Uuid>, rows: seq<Uuid>) {
    && Routing.Distinct(rows)
    && |rows| <= limit
    && (forall id | id in rows :: id in s.reservations && id !in locked && Selectable(s.reservations[id], now, maxAttempts))
    && (|rows| < limit ==>
          forall id | id in s.reservations && id !in locked && Selectable(s.reservations[id], now, maxAttempts) :: id in rows)
  }

  function ReconcileRow(s: Store, id: Uuid, c: Context, replies: nat -> Reply): Tx<Store>
    requires id in s.reservations
  {
    var r := s.reservations[id];
    if r.status.Releasing? then
      match r.target
      case None => Commit(s)
      case Some(terminal) => ReleaseRow(s, id, terminal, c, replies)
    else if r.status.Confirming? then ConfirmRow(s, id, c, replies)
    else Commit(s)
  }

  function ReconcileRows(s: Store, rows: seq<Uuid>, c: Context, replies: Uuid -> nat -> Reply): Tx<Store>
    requires forall id | id in rows :: id in s.reservations
    decreases |rows|
  {
    if rows == [] then Commit(s)
    else
      match ReconcileRow(s, rows[0], c, replies(rows[0]))
      case Raise(e) => Raise(e)
      case Commit(next) => ReconcileRows(next, rows[1..], c, replies)
  }

  // ----- Operator -----

  /** Catalogue rows are never deleted and a provider never changes kind. */
  predicate KindsKept(before: Providers, after: Providers) {
    forall id | id in before :: id in after && after[id].kind == before[id].kind
  }

  function SetStock(s: Store, k: OfferKey, onHand: int, priority: int, group: Option<Uuid>): Tx<Store> {
    match SetLevel(s.offers, k, onHand, priority, group)
    case Raise(e) => Raise(e)
    case Commit(offers) =>
      if k !in s.offers && (k.product !in s.products || k.provider !in s.providers) then Raise(IntegrityError)
      else Commit(s.(offers := offers))
  }

  /** A level is accepted exactly when it covers the reserved units and names known rows. It then holds what was
      asked for, no reserved counter moves, no other offer changes, and the version stands still iff nothing changed. */
  lemma SetStockOutcome(s: Store, k: OfferKey, onHand: int, priority: int, group: Option<Uuid>)
    requires OffersOk(s.offers)
    ensures var x := SetStock(s, k, onHand, priority, group);
            && (x.Commit? <==> priority >= 0 && onHand >= Reserved(s.offers, k)
                               && (k in s.offers || (k.product in s.products && k.provider in s.providers)))
            && (x.Raise? ==> x.error == if priority >= 0 && onHand >= 0 && k in s.offers then InventoryBelowReservedError else IntegrityError)
            && (x.Commit? ==>
                  var t := x.value;
                  && k in t.offers && t.offers[k].onHand == onHand && t.offers[k].priority == priority && t.offers[k].group == group
                  && (forall j :: Reserved(t.offers, j) == Reserved(s.offers, j))
                  && t.offers - {k} == s.offers - {k}
                  && t.offers[k].version == (if k !in s.offers then 1 else if t == s then s.offers[k].version else s.offers[k].version + 1))
  {
    var x := SetStock(s, k, onHand, priority, group);
    if x.Commit? {
      assert (x.value.offers - {k}).Keys == (s.offers - {k}).Keys;
    }
  }

  function RemoveStock(s: Store, k: OfferKey): Tx<Store> {
    match RemoveLevel(s.offers, k)
    case Raise(e) => Raise(e)
    case Commit(offers) => Commit(s.(offers := offers))
  }

  // ----- Steps and runs -----

  datatype Step =
    | CreateStep(request: CreateRequest, holds: nat -> Uuid -> Routing.CandidateReply, compensation: nat -> Reply)
    | ConfirmStep(id: Uuid, user: Uuid, replies: nat -> Reply)
    | CancelStep(id: Uuid, user: Uuid, replies: nat -> Reply)
    | ExpireStep(now: int, limit: nat, locked: set<Uuid>, batch: Uuid -> nat -> Reply)
    | ReconcileStep(now: int, limit: nat, maxAttempts: nat, baseDelay: int, locked: set<Uuid>, rows: seq<Uuid>, batch: Uuid -> nat -> Reply)
    | SetLevelStep(key: OfferKey, onHand: int, priority: int, group: Option<Uuid>)
    | RemoveLevelStep(key: OfferKey)
    | ConfigureStep(products: set<Uuid>, providers: Providers)

  /** What the database and the operator guarantee about a step, whatever the callers do. */
  predicate Possible(s: Store, step: Step) {
    match step
    case ReconcileStep(now, limit, maxAttempts, baseDelay, locked, rows, _) =>
      baseDelay > 0 && SelectedRows(s, now, limit, maxAttempts, locked, rows)
    case ConfigureStep(products, providers) => s.products <= products && KindsKept(s.providers, providers)
    case _ => true
  }

  ghost function Attempt(s: Store, step: Step): Tx<Store>
    requires Possible(s, step)
  {
    match step
    case CreateStep(q, holds, compensation) => Commit(Create(s, q, holds, compensation).store)
    case ConfirmStep(id, user, replies) => Confirm(s, id, user, replies)
    case CancelStep(id, user, replies) => Cancel(s, id, user, replies)
    case ExpireStep(now, limit, locked, batch) => ExpireBatch(s, now, limit, locked, batch)
    case ReconcileStep(now, _, maxAttempts, baseDelay, _, rows, batch) =>
      ReconcileRows(s, rows, WorkerContext(now, maxAttempts, baseDelay), batch)
    case SetLevelStep(k, onHand, priority, group) => SetStock(s, k, onHand, priority, group)
    case RemoveLevelStep(k) => RemoveStock(s, k)
    case ConfigureStep(products, providers) => Commit(s.(products := products, providers := providers))
  }

  /** A raised error rolls the whole transaction back. */
  ghost function Apply(s: Store, step: Step): Store
    requires Possible(s, step)
  {
    match Attempt(s, step)
    case Commit(next) => next
    case Raise(_) => s
  }

  ghost predicate ValidRun(s: Store, steps: seq<Step>)
    decreases |steps|
  {
    steps == [] || (Possible(s, steps[0]) && ValidRun(Apply(s, steps[0]), steps[1..]))
  }

  ghost function Run(s: Store, steps: seq<Step>): Store
    requires ValidRun(s, steps)
    decreases |steps|
  {
    if steps == [] then s else Run(Apply(s, steps[0]), steps[1..])
  }
}
