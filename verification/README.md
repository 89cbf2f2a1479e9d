# A verified model of the inventory reservation service

The service lets a customer reserve units of products that one or more sellers ("providers") offer. Internal
providers keep their stock in the database, as an offer row with `on_hand`, `reserved` and `version`; external
providers are remote systems that are asked over the network to hold, confirm or release units, and that may answer
"I do not know". A reservation is created with all its holds, then confirmed into an order, cancelled, or expired by
a worker; operations whose outcome stayed unknown are retried by a second worker.

The project states and proves what this machinery is for: no unit is promised twice, nothing is held that no
reservation accounts for, an order exists exactly for a confirmed reservation, a failed or repeated request changes
nothing it should not, and the workers' loops do exactly as much as one sweep would.

## How the model is built

**State.** `Types` holds the rows of the schema as values and the `Store` of all tables. `Transactions` gives every
use case as a total function from a store to `Commit(store)` or `Raise(error)`; a raised error rolls the whole
transaction back (`Apply`). Provider answers are arbitrary functions, so every theorem holds for every behaviour of
every provider. Confirmation and release run the same protocol towards opposite ends; `Settlement` states it once,
with a direction.

**The program's own form.** The repositories, the router, the circuit breaker, the service and the worker loops
update rows and fields in place. They are classes here (`Database`, `InventoryRepository`, `ReservationRepository`,
`ReservationService`, and the classes of `Breaker`), with the same loops, flags and early exits, and each method is
proved to have exactly the effect of the transaction function. What is then proved about the functions therefore
holds of the methods. The pure parts of the service (the domain aggregate, the fingerprint, the retry answer) are
functions.

**Said twice.** The transaction functions share small definitions: a row that is due, a provider that is a candidate,
a reservation that a user owns. `Columns`, the lemmas named so in `Routing` and `Settlement`, and the exact laws of
`Backoff` and `Breaker` state the same decisions without them, on the columns of the tables and the provider's answers,
in both directions.

**Unconditional and conditional facts.** `Consistency` holds for every run. `Lifecycle` holds for runs that respect
the reservation lifecycle (`Lifecycle.Respects`): confirm is not taken on a reservation that is EXPIRED, RELEASING or
a failed create, and cancel is not taken on one that FAILED because a provider rejected its confirmation. The guards
of the two methods do not enforce this. `Boundary` proves, for all inputs, that the restriction is exact: a committed
confirm or cancel keeps the invariant if and only if it respects the lifecycle. `Counterexample` gives a run from the
empty store in which a single step outside it makes another customer's confirmation fail.

**Protocols with interleaving.** `CreateRace` cuts concurrent creates at every database interaction, on the shared
store and with other transactions in between, and shows that every interleaving has the store and the answers of
undisturbed creates; `Breaker` cuts a call into its start and its end, so that any number of calls can be outstanding.

**Where code and documentation differ, the model follows the code.**

- `ARCHITECTURE.md:261-262` says checkout does not use `allocation_priority`; inside a routing group the router tries
  candidates in exactly that order, even before the selected offer.
- `ARCHITECTURE.md:92-101` shows no way out of `expired` and `failed`; `confirm` accepts both
  (`inventory_reservation/repository/reservation.py:174-178`). See `Boundary`.
- `ARCHITECTURE.md:105-106` names `cancelled` and `expired` as the targets of a release; `failed` is a third one.
- `ARCHITECTURE.md:148-149` promises the insufficient-inventory answer for a repeated failed create; the same answer
  is also given after a provider rejected the confirmation of a reservation that had been created successfully.
- `ARCHITECTURE.md:103-107` says a restarted worker can complete a releasing reservation; it does not
  when no outcome is unknown, as after a provider that was temporarily unavailable, when the attempts of one operation
  are used up, or when a provider has lost support. See `Stalled`, `Finishing` and `Batches`.
- `ARCHITECTURE.md:175-176` says the worker selects only due operations; it selects reservations that have one, and
  then calls all their retryable operations, due or not.

## Model

| member | source | states |
|---|---|---|
| Stock.HoldThenReleaseRestores | inventory_reservation/repository/inventory.py:75-174 | releasing what was just held always succeeds and gives back both counters; only the version shows it happened |
| InventoryRepository.Inventory.TryHold | inventory_reservation/repository/inventory.py:75-106 | the guarded update reserves the units on that one offer or leaves every offer as it was |
| InventoryRepository.Inventory.ConfirmHold | inventory_reservation/repository/inventory.py:108-141 | reserved units leave the stock of that one offer, or nothing changes |
| InventoryRepository.Inventory.ReleaseHold | inventory_reservation/repository/inventory.py:143-174 | reserved units become free on that one offer, or nothing changes |
| InventoryRepository.Inventory.ObserveAvailability | inventory_reservation/repository/inventory.py:236-259 | only a fresh reading with a quantity is written; on_hand becomes the greatest of the reading and the reserved units, and nothing else of the offers changes |
| InventoryRepository.Inventory.TryHoldSelected | inventory_reservation/repository/inventory.py:176-279 | one item's routing through the mutable offers is the routing that the lemmas of `Routing` are about: same calls, same end, same offers; and nobody is called who has no offer of the product, is disabled, cannot hold or cannot be reached |
| InventoryRepository.Inventory.SetLevel | inventory_reservation/repository/inventory_management.py:105-166 | the upsert changes nothing when it raises; it reports a level below the reserved units iff that is what is asked; an unchanged level keeps its version |
| InventoryRepository.Inventory.RemoveLevel | inventory_reservation/repository/inventory_management.py:69-103 | the row goes exactly when nothing is reserved on it; a missing row is reported, not an error |
| InventoryRepository.ProviderRouter.Ask | inventory_reservation/repository/inventory.py:331-339 | an internal candidate answers from its offer row, an external one as the provider does |
| InventoryRepository.ProviderRouter.Hold | inventory_reservation/service/provider.py:380-417 | the fallback loop makes the calls and reaches the end of the routing function |
| Rows.OrderByRows | inventory_reservation/repository/inventory.py:209-212 | the ordered result has each row exactly once, in ascending (rank, id) order |
| Rows.OnlyOneOrder | inventory_reservation/repository/inventory.py:209-212 | the order is total: no other arrangement of the same rows is ascending |
| Routing.CandidatesAreEligible | inventory_reservation/repository/inventory.py:184-234 | candidates are exactly the enabled, hold-capable, reachable offers of the product that are the selected one or share its routing group, each once, by priority and then provider id |
| Routing.CandidateColumns | inventory_reservation/repository/inventory.py:184-234 | on the columns, both directions: a candidate is an offer of the product whose provider is enabled, can hold and is internal or reachable, and which is the selected one or, if that has a routing group, in it; lower priority first, then lower provider id |
| Routing.CalledColumns | inventory_reservation/repository/inventory.py:190-217 | so is every provider that a hold call is made to |
| Routing.RoutingSafety | inventory_reservation/service/provider.py:380-417 | against an independent reading that judges every candidate on the offers before routing: the first candidate that neither is skipped nor refuses decides the end, exactly the asked candidates up to it are called, in order, and only the last call can be held or unknown |
| Routing.RoutingEffect | inventory_reservation/repository/inventory.py:176-279 | the only internal reserved counter that changes is the winner's, by exactly the quantity; external rows keep theirs |
| Routing.RoutingRows | inventory_reservation/repository/inventory.py:176-279 | every row of the store after routing: a candidate up to the decisive one has its fresh snapshot if it is external and gave one, and the new reservation if it is internal and had the units; every other row, asked later or never, is untouched |
| Routing.EndColumns | inventory_reservation/service/provider.py:380-417 | the provider that routing ends at: internal with the units free; or external, not kept from the call by an unavailable or too small reading, and the end is what it answered, its reference included |
| Routing.PassedOverColumns | inventory_reservation/service/provider.py:380-417 | and why every candidate before it was passed over, or every candidate at all if nobody held: too few units free, unavailable, too few on a fresh reading, or a declined hold |
| Routing.WinnerColumns | inventory_reservation/repository/inventory.py:190-234 | the winner is an enabled, hold-capable, reachable offer of the product, the selected one or of its routing group |
| Routing.WinnerIsEligible | inventory_reservation/repository/inventory.py:214-234 | the winner had the units free if it is internal, and is the selected provider or shares its routing group |
| Routing.UngroupedNeverFallsBack | inventory_reservation/repository/inventory.py:214-217 | without a routing group nobody but the selected provider is ever called, and at most once |
| Routing.RouteFromBounds | inventory_reservation/repository/inventory.py:236-259 | observations and holds keep 0 <= reserved <= on_hand on every offer |
| Settlement.SettleFromPointwise | inventory_reservation/repository/reservation.py:455-473 | a committed confirm or release loop settles each allocation once, by its own reply, and touches no other |
| Settlement.SettledIsTurn | inventory_reservation/repository/reservation.py:510-583 | one settlement on the columns, for confirm and release apart: what is done stays, a succeeded operation is taken over, an unknown one is left alone outside the retry context or at the cap, and otherwise one call counts one attempt and its answer decides status, operation and next attempt |
| Settlement.RefusalColumns | inventory_reservation/repository/reservation.py:518-525 | an external hold is refused iff the provider lacks the capability of this very direction, cannot be reached, or the hold has no reference; the other error is an exception of a call that is made |
| Settlement.SettlesAloneColumns | inventory_reservation/repository/reservation.py:656-663 | when one allocation settles, on the columns of its provider and its operation |
| Settlement.DelayIsScheduled | inventory_reservation/repository/reservation.py:84-89 | the next attempt is scheduled at the start of this one plus a delay that is the base delay up to the second attempt and then twice the one before |
| Settlement.SettleFromBalance | inventory_reservation/repository/reservation.py:481-508 | on allocations that are held or already settled the guarded updates never miss, and per internal offer both reserved minus held and on_hand plus confirmed stay the same |
| Settlement.SettleFromCommitsIff | inventory_reservation/repository/reservation.py:501-508 | a settlement whose holds are backed commits iff each of its allocations settles on its own: only a provider can stop it, never internal stock |
| Settlement.SettleFromBounds | inventory_reservation/repository/reservation.py:481-508 | whatever the allocations' statuses, every offer stays within bounds and external offers are not touched |
| ReservationRepository.Repository.SettleExternalHold | inventory_reservation/repository/reservation.py:510-583 | the durable operation's life from lookup to outcome: succeeded ones are not called again, unknown ones only within the retry context, attempts count up, and only this allocation changes; it is refused iff the provider lacks the capability of this direction or cannot be reached, or there is no reference |
| ReservationRepository.Repository.SettleAllocation | inventory_reservation/repository/reservation.py:618-645 | dispatches to the provider operation or to the guarded stock update and reports the error each can raise |
| ReservationRepository.Repository.EnsureOrder | inventory_reservation/repository/reservation.py:585-616 | adds the order with one line per item unless the reservation already has one |
| ReservationRepository.Repository.ConfirmAllocations | inventory_reservation/repository/reservation.py:222-246 | the loop's two flags are right: failed iff some allocation was rejected, pending iff some is neither confirmed nor rejected |
| ReservationRepository.Repository.ConfirmReservation | inventory_reservation/repository/reservation.py:189-256 | a committed confirmation leaves the whole session as the confirm transaction does, order included |
| ReservationRepository.Repository.ReleaseAllocations | inventory_reservation/repository/reservation.py:447-473 | the pending flag is set iff some allocation is not released |
| ReservationRepository.Repository.ReleaseReservation | inventory_reservation/repository/reservation.py:413-479 | the terminal status is reached iff everything is released; otherwise it is kept as the target of a RELEASING row |
| ReservationRepository.Repository.HoldEachItem | inventory_reservation/repository/reservation.py:121-155 | holds item after item and stops at the first shortage, unknown outcome or error |
| ReservationRepository.Repository.AddWithHold | inventory_reservation/repository/reservation.py:112-155 | insert, hold and compensation in place have exactly the effect and the answer of the create transaction |
| ReservationRepository.Repository.Confirm | inventory_reservation/repository/reservation.py:157-187 | every branch of confirm, with its error, its answer and the new session; an unknown id or another user's is answered with nothing and changes nothing |
| ReservationRepository.Repository.Cancel | inventory_reservation/repository/reservation.py:258-287 | every branch of cancel, with its error, its answer and the new session; an unknown id or another user's is answered with nothing and changes nothing |
| ReservationRepository.Repository.ExpireBatch | inventory_reservation/repository/reservation.py:289-318 | releases exactly the batch of due rows, in order: pending, overdue and unlocked ones, and all of these if the batch is short |
| ReservationRepository.Repository.SelectRetryable | inventory_reservation/repository/reservation.py:328-381 | returns distinct retryable reservations, and fewer than the limit only when there are no more |
| ReservationRepository.Repository.ReconcileBatch | inventory_reservation/repository/reservation.py:320-411 | every selected reservation is driven on in its own direction |
| ReservationRepository.Repository.GetByKey | inventory_reservation/repository/reservation.py:756-767 | finds a row of this user and key iff there is one |
| ReservationService.Service.Create | inventory_reservation/service/reservation.py:270-320 | answer and store of a create, with complete rollback on any raised error; a new row has the caller's user, key and items and expires one lifetime after the clock reading; items with a quantity below one are refused before the key is looked up, as they cannot be built |
| ReservationService.Service.Confirm | inventory_reservation/repository/reservation.py:807-821 | the confirm step of a run: new state and the row on commit, the old state on any error, and nothing at all for an unknown id or another user |
| ReservationService.Service.Cancel | inventory_reservation/repository/reservation.py:807-821 | the cancel step of a run: new state and the row on commit, the old state on any error, and nothing at all for an unknown id or another user |
| ReservationService.Service.ExpireOnce | inventory_reservation/service/reservation.py:379-384 | one expiry batch as a step of a run, reporting how many rows it took |
| ReservationService.Service.ReconcileOnce | inventory_reservation/service/reservation.py:475-482 | one reconciliation batch as a possible step of a run |
| ReservationService.ExpirationWorker.Run | inventory_reservation/service/reservation.py:386-431 | the loop is a run of expiry steps; the summary counts the reservations taken, the batches committed and the batches rolled back, and the worker waits after exactly the passes that did not come back full |
| ReservationService.ReconciliationWorker.Run | inventory_reservation/service/reservation.py:484-529 | likewise, and from a consistent store it never processes more reservations than attempts were left |
| Transactions.AddWithHoldCompensates | inventory_reservation/repository/reservation.py:132-142 | compensating a failed create is an ordinary release of the new row towards FAILED |
| Transactions.DueRowsAreDue | inventory_reservation/repository/reservation.py:295-305 | a batch has distinct due rows, at most the limit, and a short batch leaves no due row out |
| Transactions.DueRowsOldestFirst | inventory_reservation/repository/reservation.py:301-303 | no due row is passed over for one that comes later by expiry time and then id |
| Transactions.SetStockOutcome | inventory_reservation/repository/inventory_management.py:105-166 | a level is accepted iff it covers the reserved units and names known rows; then the offer shows it, no reserved counter and no other offer changes, and the version stands still iff nothing changed |
| Columns.FreeKeyAnswer | inventory_reservation/service/reservation.py:110-127 | under a free key: which requests are refused as having an invalid quantity, no items, an invalid lifetime or violating a constraint, each iff; a refused one changes nothing, and a row is written iff the caller gets it or is told that stock is insufficient |
| Columns.NewRowColumns | inventory_reservation/service/reservation.py:119-127 | the new row has the request's id, user, key and items, is created at the clock reading and expires one lifetime later; it is pending iff the caller gets it, and otherwise FAILED or RELEASING towards it; no other row and no order changes |
| Columns.NewHoldsColumns | inventory_reservation/repository/reservation.py:121-131 | a reservation given to the caller has one hold for each item, in order, for its quantity, at an eligible provider and with the reference that provider answered |
| Columns.OwnersOnly | inventory_reservation/repository/reservation.py:163-173 | confirm and cancel change nothing and answer nothing for an unknown id or another user's reservation, and answer the caller's own with its row |
| Columns.ConfirmColumns | inventory_reservation/repository/reservation.py:174-187 | which status leads to which branch of confirm: only the order for CONFIRMED, the error exactly for CANCELLED, a settlement without retries for every other |
| Columns.CancelColumns | inventory_reservation/repository/reservation.py:275-287 | which status leads to which branch of cancel, its two errors exactly |
| Columns.ConfirmedRowColumns | inventory_reservation/repository/reservation.py:222-256 | a committed confirmation: the turn of every allocation; FAILED iff one was rejected, CONFIRMED iff all are confirmed, else CONFIRMING; an order with user and lines exactly with CONFIRMED and only if there was none |
| Columns.ReleasedRowColumns | inventory_reservation/repository/reservation.py:447-479 | a committed release: the turn of every allocation; the terminal status without a target iff all are released, else RELEASING with it as the target |
| Columns.ExpireBatchColumns | inventory_reservation/repository/reservation.py:295-318 | a committed expiry batch changes at most the limit of rows, all pending, overdue and unlocked, the earliest first by expiry time and id, to EXPIRED or towards it; every other row stays as it was, and a short batch leaves none of these |
| Columns.NotOverdueIsKept | inventory_reservation/repository/reservation.py:295-300 | over any run of expiry passes a reservation that is not pending, or expires later, stays exactly as it was |
| Columns.DrainColumns | inventory_reservation/service/reservation.py:386-431 | what a drain leaves pending and overdue was locked at its last batch, and what was neither is as it was |
| Columns.EnoughPassesColumns | inventory_reservation/service/reservation.py:386-431 | the worker loop, after enough passes, leaves nothing pending and overdue that could not be locked |
| Columns.SelectionColumns | inventory_reservation/repository/reservation.py:328-381 | the reconciliation query on the columns: rows on their way with an unknown operation in that direction, below the cap and due, in both directions up to the limit |
| Columns.PassColumns | inventory_reservation/repository/reservation.py:320-411 | a committed reconciliation pass leaves every row alone but those it took, and these are released towards their target or confirmed, each allocation in turn with the retry context |
| Consistency.StepConsistent | inventory_reservation/repository/reservation.py:112-479 | unconditional: every step of any caller, worker or operator keeps the store consistent, keeps every request as it was made, and never leaves CONFIRMED or CANCELLED |
| Consistency.RunConsistent | inventory_reservation/repository/reservation.py:112-479 | the same over whole runs |
| Consistency.OrdersMatchConfirmations | inventory_reservation/repository/reservation.py:585-616 | unconditional: in every reachable store a reservation has an order iff it is CONFIRMED; the order is unique, has the items as its lines, and all allocations are confirmed |
| Consistency.StockStaysInBounds | inventory_reservation/repository/models.py:226-231 | unconditional: in every reachable store 0 <= reserved <= on_hand, and nothing is reserved at an external provider |
| Lifecycle.CreateAllOrNothing | inventory_reservation/repository/reservation.py:112-155 | a committed create either holds every item in full, or ends FAILED or RELEASING towards FAILED with every reserved counter exactly as before |
| Lifecycle.ConfirmRowLive | inventory_reservation/repository/reservation.py:189-256 | confirming a pending or confirming row keeps ledger, table and stock account, and cannot fail on internal stock |
| Lifecycle.ReleaseRowLive | inventory_reservation/repository/reservation.py:413-479 | releasing a row that has not begun to confirm does the same |
| Lifecycle.StepLive | inventory_reservation/repository/reservation.py:112-479 | every lifecycle-respecting step keeps consistency, table and ledger; only operators change the stock there is to account for |
| Lifecycle.RunLive | inventory_reservation/repository/reservation.py:112-479 | the same over whole lifecycle-respecting runs |
| Lifecycle.HoldConservation | inventory_reservation/repository/inventory.py:75-174 | after every lifecycle-respecting run from the empty store, an internal offer's reserved units are the sum of the HELD allocations on it over all reservations, and an external offer's are 0 |
| Lifecycle.RemovalSucceedsIff | inventory_reservation/repository/inventory_management.py:69-103 | an offer can be removed iff no live hold stands on it or it is external: `reserved` is 0 on external offers, so those go with their live holds |
| Lifecycle.LifecycleTable | inventory_reservation/repository/reservation.py:189-256 | status, release target, allocation statuses and operation statuses of every reservation fit one row of the table; PENDING means every item is held in full; no committed operation is in progress |
| Lifecycle.InternalStockNeverFails | inventory_reservation/repository/reservation.py:501-508 | the internal confirmation and release errors are unreachable in lifecycle-respecting runs |
| Lifecycle.NoOversell | inventory_reservation/repository/inventory.py:82-174 | along any stretch without operator changes on_hand plus confirmed units is constant, and held plus newly confirmed units never exceed the stock at its start |
| Boundary.SettlementConservesIff | inventory_reservation/repository/reservation.py:481-508 | a committed settlement of any row keeps the ledger iff every internal allocation was held or already at the end of that direction |
| Boundary.ConfirmConservesIff | inventory_reservation/repository/reservation.py:174-187 | without the lifecycle restriction: confirm keeps the ledger iff no internal allocation of the reservation has been released |
| Boundary.CancelConservesIff | inventory_reservation/repository/reservation.py:275-285 | without the lifecycle restriction: cancel keeps the ledger iff no internal allocation of the reservation has been confirmed |
| Boundary.ConfirmKeepsLiveIff | inventory_reservation/repository/reservation.py:174-187 | for every committed confirm: consistency, lifecycle table and ledger all survive iff the reservation was PENDING, CONFIRMING, CONFIRMED or rejected by a provider |
| Boundary.CancelKeepsLiveIff | inventory_reservation/repository/reservation.py:275-285 | for every committed cancel: they survive iff the reservation was not rejected by a provider |
| Boundary.RespectsIsExact | inventory_reservation/repository/reservation.py:157-287 | the lifecycle restriction is exact: a committed confirm or cancel keeps the invariant iff it respects it |
| Boundary.OrderIsBackedIff | inventory_reservation/repository/reservation.py:177-187 | when confirm reaches CONFIRMED, every item of the new order has its confirmed allocation iff the reservation had been allocated in full |
| Boundary.EmptyFailureCanBeConfirmed | inventory_reservation/repository/reservation.py:177-187 | the plainest failing case: a failed reservation that never held anything is confirmed and ordered |
| Counterexample.LifecycleIsNeeded | inventory_reservation/repository/reservation.py:177-187 | after a run from the empty store, confirming the expired reservation consumes another customer's unit, whose own confirm then fails |
| Counterexample.AfterExpiryIsReached | inventory_reservation/repository/reservation.py:289-318 | that run: stock one shelf, reserve a unit for each of two customers, expire one; it respects the lifecycle |
| Counterexample.ExternalHoldIsDropped | inventory_reservation/repository/inventory_management.py:69-103 | a run from the empty store in which an external offer is removed while a unit is held there |
| Batches.ReconcileRowsCommitIff | inventory_reservation/repository/reservation.py:381-403 | a reconciliation batch commits iff each of its rows, seen on its own, settles |
| Batches.ExpireBatchCommitsIff | inventory_reservation/repository/reservation.py:305-310 | an expiry batch commits iff each of its rows, seen on its own, releases without an error |
| Batches.UnservedRowBlocksBatch | inventory_reservation/repository/reservation.py:654-662 | one reservation whose provider has lost support rolls back every reconciliation batch that contains it |
| Batches.FirstInLineBlocksExpiry | inventory_reservation/repository/reservation.py:518-525 | an overdue one that is first in line blocks expiry altogether, whatever the providers answer, unless it is locked |
| Retry.RunFingerprints | inventory_reservation/service/reservation.py:277-302 | in every run each stored fingerprint is the canonical text of the stored items |
| Retry.RetryAnswers | inventory_reservation/service/reservation.py:550-563 | a repeated key changes nothing; valid items conflict iff they differ as a multiset, and otherwise the stored reservation or its insufficient stock answers |
| Retry.StepKeepsFailed | inventory_reservation/repository/reservation.py:390-398 | no worker, operator, other customer or retry revives a failed create |
| Retry.FailedCreateIsStable | inventory_reservation/service/reservation.py:550-563 | after any run without confirm or cancel of it, a retry with the same key and items, in any order, raises insufficient inventory and changes nothing |
| Fingerprint.UuidTextInjective | inventory_reservation/service/reservation.py:541 | the hex-and-dash text of section 4 of RFC 9562 identifies the UUID |
| Fingerprint.JoinInjective | inventory_reservation/service/reservation.py:540-546 | the joined text can be read back: equal texts come from equal item lists |
| Fingerprint.CanonicalForm | inventory_reservation/service/reservation.py:539-547 | two requests have the same canonical text iff they ask for the same items in whatever order, provided one offer is not asked for in two quantities |
| Fingerprint.DistinctProductsSuffice | inventory_reservation/repository/models.py:342 | the schema's one-product-per-reservation constraint meets that proviso |
| Fingerprint.OrderInsensitiveIff | inventory_reservation/service/reservation.py:542-545 | for every item list: its text is that of all its reorderings iff no offer is asked for in two quantities, since the sort key ignores the quantity |
| Domain.ConfirmRefinesDomain | inventory_reservation/service/reservation.py:130-139 | on internal-only reservations that are pending, confirmed or cancelled, in any live store, the confirm transaction and the aggregate's confirm give the same status or the same error |
| Domain.CancelRefinesDomain | inventory_reservation/service/reservation.py:141-152 | the same for cancel |
| Expiry.BatchStep | inventory_reservation/repository/reservation.py:289-318 | one batch of due reservations that settle, whatever rows are locked by others: it commits, takes exactly its rows off the due ones, keeps the outcome of the full sweep, and when short leaves only locked rows due |
| Expiry.InternalOnlySettles | inventory_reservation/repository/reservation.py:501-508 | due reservations without external holds always settle |
| Expiry.DrainRefinesSweep | inventory_reservation/service/reservation.py:386-431 | draining due reservations that settle, internal or external, with any positive batch size and any rows locked at each batch, commits and leaves due only what the last batch found locked; if that was nothing due, it ends in the same offers (versions included), allocations, operations and statuses as releasing all of them at once |
| Workers.EnoughPassesSweep | inventory_reservation/service/reservation.py:386-431 | the worker loop itself, on due reservations that settle: passes at one clock reading never change what the sweep leaves and count each reservation once; enough of them leave only lockable rows due, and do exactly the sweep if nothing can be locked |
| Workers.StretchIsDrain | inventory_reservation/service/reservation.py:410-425 | what the worker does between two waits at one clock reading is such a drain |
| Workers.TakenIsProcessed | inventory_reservation/service/reservation.py:514-515 | the reconciliation summary counts the reservations of committed passes |
| Reconciliation.ProcessedIsNotSelectable | inventory_reservation/repository/reservation.py:328-376 | a reservation processed at one clock reading is not selectable again at it, and no other row changes |
| Reconciliation.PassShrinksQueue | inventory_reservation/repository/reservation.py:320-411 | a committed pass takes exactly its rows off the queue of that clock reading |
| Reconciliation.DrainEnds | inventory_reservation/service/reservation.py:484-529 | full committed passes at one clock reading are bounded by the queue at the start, so the drain ends |
| Reconciliation.ShortPassFinishes | inventory_reservation/service/reservation.py:516-517 | a short committed pass leaves nothing selectable at that clock reading but rows that were locked |
| Reconciliation.ReconcileSpends | inventory_reservation/repository/reservation.py:527-577 | processing one reservation lowers the sum of attempts left over all operations |
| Reconciliation.WorkersSpendBudget | inventory_reservation/repository/reservation.py:320-411 | over any run of worker steps that sum falls by at least one per processed reservation, which bounds their number |
| Stalled.NeverSelectableIff | inventory_reservation/repository/reservation.py:328-376 | a RELEASING or CONFIRMING reservation is never selected by the worker, at whatever time, iff each of its unknown operations in that direction has used up its attempts |
| Stalled.NobodyFinishesStuck | inventory_reservation/repository/reservation.py:338-357 | without the customer such a reservation does not change at all, over any run with no larger cap |
| Stalled.ReleasePickedUpIff | inventory_reservation/repository/reservation.py:570-583 | a first release stays RELEASING iff some provider did not release at once, and the worker will select it iff some answer was unknown and more than one attempt is allowed |
| Stalled.ConfirmPickedUpIff | inventory_reservation/repository/reservation.py:707-720 | a first confirmation is FAILED iff some provider rejected it, CONFIRMING iff none did and some did not confirm at once, and selected iff besides some answer was unknown and more than one attempt is allowed |
| Stalled.StuckAtOnceIff | inventory_reservation/repository/reservation.py:328-357 | an unfinished first release or confirmation is stuck from the start iff no answer was unknown or only one attempt is allowed |
| Finishing.CallCanFinishIff | inventory_reservation/repository/reservation.py:527-540 | one call, of the worker or the customer, can finish a RELEASING or CONFIRMING reservation iff each unfinished allocation has a supporting provider, a reference and an operation that is not parked: below the cap for the worker, of known outcome for the customer |
| Finishing.DoomedIsNeverFinished | inventory_reservation/repository/reservation.py:537-540 | one allocation whose unknown operation has reached the cap, or without a reference, keeps its reservation RELEASING, or from ever being CONFIRMED, over every lifecycle-respecting run with no larger cap, whatever customers retry and operators reconfigure |
| Finishing.FinishableIff | inventory_reservation/repository/reservation.py:320-411 | the exact condition for finishing what was begun: some lifecycle-respecting run within the cap does it iff no unfinished allocation is of that kind |
| Backoff.WaitingStep | inventory_reservation/repository/reservation.py:534-577 | for a reservation that waits for one provider whose answers stay unknown, each step is either one worker attempt in a committed pass or leaves the operation alone |
| Backoff.ExponentialBackoff | inventory_reservation/repository/reservation.py:84-89 | over any lifecycle-respecting run, however often the user retries, the j-th worker attempt in a committed pass starts no earlier than first + base * (2^(j-1) - 1), and there are at most max_attempts minus the attempts before |
| Backoff.DueAgain | inventory_reservation/repository/reservation.py:570-574 | after a committed attempt that is still unknown the reservation is selected again at exactly those times that are a delay later or more; the delay is the base delay for the first attempt of the worker after one of the user |
| Backoff.DelaysDouble | inventory_reservation/repository/reservation.py:84-89 | the delay after one attempt more is exactly twice as long, for any two attempts in any stores |
| Backoff.ExactBackoff | inventory_reservation/repository/reservation.py:320-411 | over any lifecycle-respecting run: the delays of the worker attempts start with the base delay and double exactly, no attempt starts before its time, and at the end the reservation is due from exactly that time on, unless its attempts are used up |
| Backoff.RetriedAtOnceIff | inventory_reservation/service/reservation.py:491-508 | after a pass that took a reservation, the worker may take it again at the same instant iff the pass was rolled back |
| Backoff.RaisedPassesRepeat | inventory_reservation/service/reservation.py:491-508 | a raised pass can be repeated any number of times at one instant and counts as no attempt |
| Backoff.RolledBackPassCalls | inventory_reservation/repository/reservation.py:382-403 | such a pass may have called the provider: beside a reservation whose own provider has lost support, each pass makes one more attempt and forgets it |
| Breaker.BreakerInvariant | inventory_reservation/service/provider.py:301-338 | for any interleaving: a probe is marked in flight iff exactly one is outstanding, the count is that of counted ends since the last success, and the circuit is open iff it reached the threshold |
| Breaker.AdmissionIff | inventory_reservation/service/provider.py:309-316 | who gets through, read off the history for any interleaving: below the threshold every call, as an ordinary one; from it on a probe, iff no other is outstanding and a recovery timeout has passed since the last counted end |
| Breaker.OpenCircuitSpacing | inventory_reservation/service/provider.py:309-316 | while nothing succeeds and every ending probe is counted, calls start at least the recovery timeout after the opening and after each other; how earlier ordinary calls fail does not matter |
| Breaker.CallRateBound | inventory_reservation/service/provider.py:301-338 | so of the calls of any such run at most floor(T / R) start within a window of length T after the opening |
| Breaker.GateAfterProbe | inventory_reservation/service/provider.py:318-338 | after a probe that did not succeed, the next call is admitted iff a recovery timeout has passed since its end if that was counted, but since the old opening if it was not |
| Breaker.UncountedProbeReopensGate | inventory_reservation/service/provider.py:336-338 | so a probe ending in an uncounted exception lets the next call through at once |
| Breaker.UncountedProbeBreaksSpacing | inventory_reservation/service/provider.py:309-338 | the condition on probes is needed: after any opening a run with one uncounted probe end has two calls start at the same instant |
| Breaker.CircuitBreakerProvider.Start | inventory_reservation/service/provider.py:309-316 | the part before the await, on the circuit of one operation and no other: a closed circuit always admits; an open one refuses iff the recovery timeout is not over or a probe is in flight |
| Breaker.CircuitBreakerProvider.Finish | inventory_reservation/service/provider.py:318-338 | the part after the await, on the circuit of one operation and no other: failures and unknowns count and open from the threshold on, an answer closes, any other exception leaves both, and an ending probe clears its mark |
| Frame.AddWithHoldFrame | inventory_reservation/repository/reservation.py:112-155 | the holding transaction does the same on any store with the same providers and the same offers of the requested products, and writes nothing but those offers and its own row |
| Frame.UserStepIsApart | inventory_reservation/repository/reservation.py:157-287 | a confirm or cancel of a reservation for other products leaves that view as it is |
| Frame.LevelStepIsApart | inventory_reservation/repository/inventory_management.py:69-166 | so does an operator who changes the stock of another product |
| CreateRace.EventIsAtomic | inventory_reservation/service/reservation.py:270-320 | each event that answers a create does to the store, and says to the caller, what an undisturbed create would at that instant; its other events leave the store alone |
| CreateRace.RaceInvariant | inventory_reservation/repository/reservation.py:807-821 | every event keeps the race invariant, and a taken key stays taken and ends all holding |
| CreateRace.OneReservationPerKey | inventory_reservation/service/reservation.py:270-320 | over any interleaving of creates for one key with any other transactions, at most one commits, successful calls return the same id, only insert winners reach a provider, never two at a time, and the concurrency error is never re-raised |
| CreateRace.NoHoldAfterCommit | inventory_reservation/repository/reservation.py:807-821 | after the commit no event for this key reaches a provider or commits again |
| CreateRace.RaceIsSerial | inventory_reservation/service/reservation.py:270-320 | every interleaving leads to the store of its transactions run one after another, in the order in which they take effect |
| CreateRace.AnswersAreSerial | inventory_reservation/service/reservation.py:270-320 | and every answer is what that call, run alone after the transactions before it, would say |

## Left out

- HTTP clients, authentication, response parsing and provider settings caches: a provider is an arbitrary function
  from call to answer, where an answer may also be an unexpected exception. The flag `http` of a provider stands for
  "a registry is configured, the base URL is set and the driver is http".
- Controllers, schemas, error handlers, telemetry, signal handling, configuration parsing, migrations.
- Product, provider and credential management: `ConfigureStep` may add products and providers and change any
  capability, but never the kind of a provider and never delete one.
- PostgreSQL itself: a guarded UPDATE, a row lock, a unique key and a rollback are taken as the meaning of a step.
  Rows locked by other transactions are a set that the worker queries skip.
- Failures of the database connection or of the commit itself; in `CreateRace` they are an abort.
- Columns that no modelled decision reads: failure code and reason, error code and message, latency, `observed_at`,
  `updated_at`, reservation and order versions, order ids.
- The row order of the two queries without ORDER BY: allocations are visited and order lines created in item order.
- `Reservation` objects returned to the caller list their items by product; the model returns the stored order.
- SHA-256: the model keeps the canonical text itself, which assumes that the hash does not collide.
- Times are integers in one unit, so the rounding of fractional seconds is not modelled, nor is `timedelta` overflow.
- Waiting between worker passes and the stop event: a worker run is a sequence of clock readings of any length.
- ReservationRepository.Repository.SelectRetryable: the query orders by `updated_at`, a database timestamp; the model
  allows any choice of rows that the limit permits, so every theorem holds for every order.
- Reconciliation.WorkersSpendBudget: an allocation without an operation counts as one whose attempts are all left,
  since a release that is resumed may create it; the sum is over both operations of every allocation.
- Backoff.ExponentialBackoff: attempts in committed passes only; calls of a pass that is rolled back leave no trace, and
  `Backoff.RaisedPassesRepeat` shows that nothing spaces or bounds them. Stated for a reservation with exactly one
  unsettled allocation, an external one; with several, processing the reservation calls all of them, due or not, and
  per-operation spacing fails in the code.
- Backoff.ExactBackoff: the same two limits. The schedule of each single operation, with any number of allocations, is
  in `Settlement.SettledIsTurn`.
- External holds of a removed offer: the code deletes an external offer whatever is held at the provider, as
  `Lifecycle.RemovalSucceedsIff` says; the allocations stay and are settled without the offer row.
- Expiry.DrainRefinesSweep: for due reservations that each settle on their own, since `Batches.ExpireBatchCommitsIff`
  shows that no batch with another one commits.
- CreateRace.RaceIsSerial: creates of one key at a time, against any other transactions. Between holding and commit
  these may change anything but the providers and the offers of the requested products; the database would also let
  them change an offer that routing only considered.
- Eventual completion of every RELEASING or CONFIRMING reservation: it does not hold. `Finishing.FinishableIff` says
  which can be finished by some run, and `Stalled.NeverSelectableIff` which of them no worker takes up by itself.
- Stock at the external provider's side: after an unknown hold the transaction rolls back without a record of earlier
  remote holds, so local and remote counts cannot be related.
