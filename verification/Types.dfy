/** The rows of the reservation schema as values, and the store that holds them. */
module Types {

  /** A UUID, identified with its 128-bit integer value. */
  type Uuid = n: nat | n < 0x1_0000_0000_0000_0000_0000_0000_0000_0000

  datatype Option<+T> = None | Some(value: T)

  /** A database transaction either commits a value or is rolled back by a raised error. */
  datatype Tx<+T> = Commit(value: T) | Raise(error: Error)

  datatype Error =
    | InventoryConfirmationError(kind: ProviderKind)  // `kind` tells which branch raised it
    | InventoryReleaseError(kind: ProviderKind)
    | UnknownProviderOutcomeError
    | ProviderRaised
    | ReservationNotConfirmableError
    | ReservationNotCancellableError
    | ReservationReconciliationRequiredError
    | ConcurrentReservationCreationError
    | IntegrityError
    | EmptyReservationError
    | InvalidReservationTtlError
    | InvalidReservationQuantityError
    | InsufficientInventoryError
    | IdempotencyConflictError
    | InventoryBelowReservedError
    | InventoryHasActiveReservationsError

  datatype ProviderKind = Internal | External

  /** `http` abbreviates "a registry is configured, the base URL is set and the driver is http". */
  datatype Provider = Provider(
    kind: ProviderKind, enabled: bool, http: bool,
    availability: bool, hold: bool, confirm: bool, release: bool)

  datatype OfferKey = OfferKey(product: Uuid, provider: Uuid)

  datatype Offer = Offer(onHand: int, reserved: int, version: int, priority: int, group: Option<Uuid>)

  datatype Item = Item(product: Uuid, provider: Uuid, quantity: int)

  datatype ReservationStatus = Pending | Confirming | Confirmed | Releasing | Cancelled | Expired | Failed

  datatype AllocationStatus = Held | Confirmed | Released | Failed | Unknown

  datatype OperationStatus = InProgress | Succeeded | Failed | Unknown

  datatype Operation = Operation(status: OperationStatus, attempts: nat, nextAttemptAt: Option<int>)

  /** One item's claim on one offer. The idempotency keys of provider operations are a function of
      reservation, allocation and direction, so an allocation owns at most one operation of each kind. */
  datatype Allocation = Allocation(
    key: OfferKey, quantity: int, status: AllocationStatus, reference: Option<string>,
    confirmOp: Option<Operation>, releaseOp: Option<Operation>)

  datatype Reservation = Reservation(
    id: Uuid, user: Uuid, key: string, fingerprint: string, items: seq<Item>,
    createdAt: int, expiresAt: int, status: ReservationStatus, target: Option<ReservationStatus>,
    allocations: seq<Allocation>)

  datatype OrderLine = OrderLine(product: Uuid, quantity: int)

  datatype Order = Order(reservation: Uuid, user: Uuid, lines: seq<OrderLine>)

  type Providers = map<Uuid, Provider>
  type Offers = map<OfferKey, Offer>
  type Reservations = map<Uuid, Reservation>

  datatype Store = Store(
    products: set<Uuid>, providers: Providers, offers: Offers, reservations: Reservations, orders: seq<Order>)

  const EMPTY_STORE := Store({}, map[], map[], map[], [])

  /** Foreign keys keep every referenced provider present, so the default is never read by the program. */
  function ProviderRow(providers: Providers, id: Uuid): Provider {
    if id in providers then providers[id] else Provider(External, false, false, false, false, false, false)
  }

  predicate IsInternal(providers: Providers, id: Uuid) {
    ProviderRow(providers, id).kind.Internal?
  }
}
