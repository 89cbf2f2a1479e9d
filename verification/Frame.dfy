/** What the holding transaction of a create depends on and what it writes: the offers of the requested products and
    its own row. Everything else may change under it. */
module Frame {
  import opened Types
  import opened Stock
  import opened Settlement
  import opened Transactions
  import Routing

  function ProductsOf(items: seq<Item>): set<Uuid> {
    set item | item in items :: item.product
  }

  /** The offers of `products` as in `own`, all others as in `base`. */
  function Overlay(base: Offers, own: Offers, products: set<Uuid>): Offers {
    (map k | k in base && k.product !in products :: base[k]) + (map k | k in own && k.product in products :: own[k])
  }

  lemma OverlayAt(base: Offers, own: Offers, products: set<Uuid>, k: OfferKey)
    ensures k.product in products ==> (k in Overlay(base, own, products) <==> k in own) && (k in own ==> Overlay(base, own, products)[k] == own[k])
    ensures k.product !in products ==> (k in Overlay(base, own, products) <==> k in base) && (k in base ==> Overlay(base, own, products)[k] == base[k])
  {
  }

  lemma OverlaySelf(own: Offers, products: set<Uuid>)
    ensures Overlay(own, own, products) == own
  {
  }

  lemma OverlayUpdate(base: Offers, own: Offers, products: set<Uuid>, k: OfferKey, o: Offer)
    requires k.product in products
    ensures Overlay(base, own[k := o], products) == Overlay(base, own, products)[k := o]
  {
  }

  lemma OverlayTwice(base: Offers, middle: Offers, own: Offers, products: set<Uuid>)
    ensures Overlay(base, Overlay(middle, own, products), products) == Overlay(base, own, products)
  {
  }

  // ----- Routing -----

  function OverlayVisit(base: Offers, v: Routing.Visit, products: set<Uuid>): Routing.Visit {
    match v
    case Skip(own) => Routing.Skip(Overlay(base, own, products))
    case Break(own) => Routing.Break(Overlay(base, own, products))
    case Answer(own, answer) => Routing.Answer(Overlay(base, own, products), answer)
  }

  lemma AskHoldFrame(base: Offers, own: Offers, products: set<Uuid>, p: Provider, k: OfferKey, quantity: int, reply: Routing.HoldReply)
    requires k.product in products
    ensures Routing.AskHold(p, Overlay(base, own, products), k, quantity, reply)
            == OverlayVisit(base, Routing.AskHold(p, own, k, quantity, reply), products)
  {
    hide Overlay;
    OverlayAt(base, own, products, k);
    if k in own {
      var o := own[k];
      OverlayUpdate(base, own, products, k, o.(reserved := o.reserved + quantity, version := o.version + 1));
    }
  }

  lemma ObserveFrame(base: Offers, own: Offers, products: set<Uuid>, k: OfferKey, available: int)
    requires k.product in products
    ensures Observe(Overlay(base, own, products), k, available) == Overlay(base, Observe(own, k, available), products)
  {
    if k in own {
      var o := own[k];
      OverlayUpdate(base, own, products, k, o.(onHand := Max(o.reserved, available), version := o.version + 1));
    }
  }

  lemma VisitFrame(base: Offers, own: Offers, products: set<Uuid>, p: Provider, k: OfferKey, quantity: int, reply: Routing.CandidateReply)
    requires k.product in products
    ensures Routing.VisitOne(p, Overlay(base, own, products), k, quantity, reply)
            == OverlayVisit(base, Routing.VisitOne(p, own, k, quantity, reply), products)
  {
    hide Overlay, Observe, Routing.AskHold;
    AskHoldFrame(base, own, products, p, k, quantity, reply.hold);
    if reply.availability.Fresh? && reply.availability.available.Some? {
      var n := reply.availability.available.value;
      ObserveFrame(base, own, products, k, n);
      AskHoldFrame(base, Observe(own, k, n), products, p, k, quantity, reply.hold);
    }
  }

  lemma CandidatesFrame(base: Offers, own: Offers, products: set<Uuid>, providers: Providers, selected: OfferKey)
    requires selected.product in products
    ensures Routing.Candidates(providers, Overlay(base, own, products), selected) == Routing.Candidates(providers, own, selected)
  {
    var all := Overlay(base, own, products);
    forall k ensures Routing.IsCandidate(providers, all, selected, k) <==> Routing.IsCandidate(providers, own, selected, k)
             ensures Routing.IsCandidate(providers, own, selected, k) ==> all[k] == own[k]
    {
    }
    assert Routing.CandidateKeys(providers, all, selected) == Routing.CandidateKeys(providers, own, selected);
  }

  function OverlayRouting(base: Offers, r: Routing.Routing, products: set<Uuid>): Routing.Routing {
    r.(offers := Overlay(base, r.offers, products))
  }

  lemma {:induction false} RouteFromFrame(base: Offers, own: Offers, products: set<Uuid>, providers: Providers, d: Routing.Demand,
                                          candidates: seq<Uuid>, i: nat, calls: seq<Routing.Call>, replies: Uuid -> Routing.CandidateReply)
    requires i <= |candidates| && d.product in products
    ensures Routing.RouteFrom(providers, Overlay(base, own, products), d, candidates, i, calls, replies)
            == OverlayRouting(base, Routing.RouteFrom(providers, own, d, candidates, i, calls, replies), products)
    decreases |candidates| - i
  {
    hide Overlay, Routing.VisitOne;
    if i < |candidates| {
      var c := candidates[i];
      var k := OfferKey(d.product, c);
      VisitFrame(base, own, products, ProviderRow(providers, c), k, d.quantity, replies(c));
      match Routing.VisitOne(ProviderRow(providers, c), own, k, d.quantity, replies(c)) {
        case Skip(next) => RouteFromFrame(base, next, products, providers, d, candidates, i + 1, calls, replies);
        case Break(_) =>
        case Answer(next, answer) =>
          if Routing.Refusal(answer) {
            RouteFromFrame(base, next, products, providers, d, candidates, i + 1, calls + [Routing.Call(c, answer)], replies);
          }
      }
    }
  }

  lemma RouteItemFrame(base: Offers, own: Offers, products: set<Uuid>, providers: Providers, item: Item, replies: Uuid -> Routing.CandidateReply)
    requires item.product in products
    ensures Routing.RouteItem(providers, Overlay(base, own, products), item, replies)
            == OverlayRouting(base, Routing.RouteItem(providers, own, item, replies), products)
  {
    var selected := OfferKey(item.product, item.provider);
    CandidatesFrame(base, own, products, providers, selected);
    hide Overlay;
    RouteFromFrame(base, own, products, providers, Routing.Demand(item.product, item.quantity),
                   Routing.Candidates(providers, own, selected), 0, [], replies);
  }

  // ----- Holding -----

  predicate Within(allocations: seq<Allocation>, products: set<Uuid>) {
    forall a | a in allocations :: a.key.product in products
  }

  function OverlayHolding(base: Offers, x: Tx<Holding>, products: set<Uuid>): Tx<Holding> {
    match x
    case Raise(e) => Raise(e)
    case Commit(h) => Commit(h.(offers := Overlay(base, h.offers, products)))
  }

  lemma HeldWithin(allocations: seq<Allocation>, products: set<Uuid>, item: Item, hold: Routing.ProviderHold)
    requires Within(allocations, products) && item.product in products
    ensures Within(allocations + [HeldAllocation(item, hold)], products)
  {
  }

  lemma ItemWithin(items: seq<Item>, i: nat)
    requires i < |items|
    ensures items[i].product in ProductsOf(items)
  {
  }

  lemma NothingLeftToHold(base: Offers, own: Offers, products: set<Uuid>, providers: Providers, items: seq<Item>,
                          allocations: seq<Allocation>, replies: nat -> Uuid -> Routing.CandidateReply)
    ensures HoldItems(providers, own, items, |items|, allocations, replies) == Commit(Holding(own, allocations, true))
    ensures HoldItems(providers, Overlay(base, own, products), items, |items|, allocations, replies)
            == Commit(Holding(Overlay(base, own, products), allocations, true))
  {
    hide Overlay;
  }

  lemma {:induction false} HoldItemsFrame(base: Offers, own: Offers, products: set<Uuid>, providers: Providers, items: seq<Item>, i: nat,
                                          allocations: seq<Allocation>, replies: nat -> Uuid -> Routing.CandidateReply)
    requires i <= |items| && ProductsOf(items) <= products && Within(allocations, products)
    ensures var x := HoldItems(providers, own, items, i, allocations, replies);
            && HoldItems(providers, Overlay(base, own, products), items, i, allocations, replies) == OverlayHolding(base, x, products)
            && (x.Commit? ==> Within(x.value.allocations, products))
    decreases |items| - i
  {
    hide Overlay, ProductsOf, Routing.RouteItem, HoldItems, Within;
    if i == |items| {
      NothingLeftToHold(base, own, products, providers, items, allocations, replies);
    } else {
      ItemWithin(items, i);
      RouteItemFrame(base, own, products, providers, items[i], replies(i));
      var r := Routing.RouteItem(providers, own, items[i], replies(i));
      HoldItemsTurn(providers, own, items, i, allocations, replies, r);
      HoldItemsTurn(providers, Overlay(base, own, products), items, i, allocations, replies, OverlayRouting(base, r, products));
      match r.end {
        case RoutedTo(hold) =>
          HeldWithin(allocations, products, items[i], hold);
          HoldItemsFrame(base, r.offers, products, providers, items, i + 1, allocations + [HeldAllocation(items[i], hold)], replies);
        case _ =>
      }
    }
  }

  // ----- Compensating -----

  function OverlaySettled(base: Offers, x: Tx<Settled>, products: set<Uuid>): Tx<Settled> {
    match x
    case Raise(e) => Raise(e)
    case Commit(s) => Commit(s.(offers := Overlay(base, s.offers, products)))
  }

  lemma SettleOneFrame(base: Offers, own: Offers, products: set<Uuid>, d: Direction, c: Context, p: Provider, a: Allocation, reply: Reply)
    requires a.key.product in products
    ensures SettleOne(d, c, p, Overlay(base, own, products), a, reply) == OverlaySettled(base, SettleOne(d, c, p, own, a, reply), products)
  {
    hide SettleExternal, Overlay;
    OverlayAt(base, own, products, a.key);
    if a.key in own {
      var o := own[a.key];
      OverlayUpdate(base, own, products, a.key, o.(reserved := o.reserved - a.quantity, version := o.version + 1));
      OverlayUpdate(base, own, products, a.key, o.(onHand := o.onHand - a.quantity, reserved := o.reserved - a.quantity, version := o.version + 1));
    }
  }

  function OverlayBooks(base: Offers, x: Tx<Books>, products: set<Uuid>): Tx<Books> {
    match x
    case Raise(e) => Raise(e)
    case Commit(b) => Commit(b.(offers := Overlay(base, b.offers, products)))
  }

  lemma SettleOneKeepsKey(d: Direction, c: Context, p: Provider, offers: Offers, a: Allocation, reply: Reply)
    requires SettleOne(d, c, p, offers, a, reply).Commit?
    ensures SettleOne(d, c, p, offers, a, reply).value.allocation.key == a.key
  {
  }

  lemma {:induction false} SettleFromFrame(base: Offers, b: Books, products: set<Uuid>, d: Direction, c: Context, providers: Providers, i: nat,
                                           replies: nat -> Reply)
    requires i <= |b.allocations| && Within(b.allocations, products)
    ensures SettleFrom(d, c, providers, Books(Overlay(base, b.offers, products), b.allocations), i, replies)
            == OverlayBooks(base, SettleFrom(d, c, providers, b, i, replies), products)
    decreases |b.allocations| - i
  {
    hide Overlay, SettleOne;
    if i < |b.allocations| {
      var a := b.allocations[i];
      assert a in b.allocations;
      var p := ProviderRow(providers, a.key.provider);
      SettleOneFrame(base, b.offers, products, d, c, p, a, replies(i));
      match SettleOne(d, c, p, b.offers, a, replies(i)) {
        case Raise(_) =>
        case Commit(s) =>
          SettleOneKeepsKey(d, c, p, b.offers, a, replies(i));
          SettleFromFrame(base, Books(s.offers, b.allocations[i := s.allocation]), products, d, c, providers, i + 1, replies);
      }
    }
  }

  // ----- The whole transaction -----

  function OwnRow(rs: Reservations, id: Uuid): Reservations {
    if id in rs then map[id := rs[id]] else map[]
  }

  /** What the transaction wrote in `own`, on top of `base`. */
  function Rebase(base: Store, own: Store, q: Reservation): Store {
    base.(offers := Overlay(base.offers, own.offers, ProductsOf(q.items)),
          reservations := base.reservations + OwnRow(own.reservations, q.id))
  }

  function Rebased(base: Store, q: Reservation, x: Tx<Added>): Tx<Added> {
    match x
    case Raise(e) => Raise(e)
    case Commit(added) => Commit(Added(Rebase(base, added.store, q), added.held))
  }

  /** Nothing that the transaction looks at differs: not the providers, and not the offers of the requested products. */
  predicate Apart(s: Store, t: Store, q: Reservation) {
    t.providers == s.providers && Overlay(t.offers, s.offers, ProductsOf(q.items)) == t.offers
  }

  lemma ReleaseAllFrame(base: Offers, own: Offers, products: set<Uuid>, providers: Providers, r: Reservation, terminal: ReservationStatus,
                        replies: nat -> Reply)
    requires Within(r.allocations, products)
    ensures ReleaseAll(providers, Overlay(base, own, products), r, terminal, USER_CONTEXT, replies)
            == match ReleaseAll(providers, own, r, terminal, USER_CONTEXT, replies)
               case Raise(e) => Raise(e)
               case Commit(account) => Commit(account.(offers := Overlay(base, account.offers, products)))
  {
    hide Overlay, SettleFrom;
    SettleFromFrame(base, Books(own, r.allocations), products, ToRelease, USER_CONTEXT, providers, 0, replies);
  }

  /** The transaction does the same on any store that looks the same to it, on top of that store. */
  lemma AddWithHoldFrame(s: Store, t: Store, q: Reservation, holds: nat -> Uuid -> Routing.CandidateReply, releases: nat -> Reply)
    requires Apart(s, t, q) && InsertError(s, q).None? && InsertError(t, q).None?
    ensures AddWithHold(t, q, holds, releases) == Rebased(t, q, AddWithHold(s, q, holds, releases))
  {
    var products := ProductsOf(q.items);
    HoldItemsFrame(t.offers, s.offers, products, s.providers, q.items, 0, [], holds);
    hide Overlay, HoldItems, InsertError, ReleaseAll;
    match HoldItems(s.providers, s.offers, q.items, 0, [], holds) {
      case Raise(_) =>
      case Commit(h) =>
        var r := q.(allocations := h.allocations);
        ReleaseAllFrame(t.offers, h.offers, products, s.providers, r, ReservationStatus.Failed, releases);
        RebasePut(s, t, q, Account(h.offers, r));
        match ReleaseAll(s.providers, h.offers, r, ReservationStatus.Failed, USER_CONTEXT, releases) {
          case Raise(_) =>
          case Commit(account) => RebasePut(s, t, q, account);
        }
    }
  }

  lemma RebasePut(s: Store, t: Store, q: Reservation, account: Account)
    ensures Rebase(t, Put(s, q.id, account), q) == Put(t, q.id, account.(offers := Overlay(t.offers, account.offers, ProductsOf(q.items))))
  {
    hide Overlay, ProductsOf;
    assert t.reservations + map[q.id := account.reservation] == t.reservations[q.id := account.reservation];
  }

  lemma RebaseTwice(s: Store, t: Store, q: Reservation, x: Tx<Added>)
    requires x.Commit? ==> q.id in x.value.store.reservations
    ensures Rebased(t, q, Rebased(s, q, x)) == Rebased(t, q, x)
  {
    if x.Commit? {
      var u := x.value.store;
      OverlayTwice(t.offers, s.offers, u.offers, ProductsOf(q.items));
      hide Overlay, ProductsOf;
      assert OwnRow(Rebase(s, u, q).reservations, q.id) == OwnRow(u.reservations, q.id);
    }
  }

  // ----- Transactions that stay apart -----

  lemma SettlingStaysWithin(s: Store, b: Books, products: set<Uuid>, d: Direction, c: Context, replies: nat -> Reply, k: OfferKey)
    requires Within(b.allocations, products) && k.product !in products
    requires SettleFrom(d, c, s.providers, b, 0, replies).Commit?
    ensures var t := SettleFrom(d, c, s.providers, b, 0, replies).value.offers;
            (k in t <==> k in b.offers) && (k in b.offers ==> t[k] == b.offers[k])
  {
    OverlaySelf(b.offers, products);
    SettleFromFrame(b.offers, b, products, d, c, s.providers, 0, replies);
    OverlayAt(b.offers, SettleFrom(d, c, s.providers, b, 0, replies).value.offers, products, k);
    hide Overlay, SettleFrom;
  }

  lemma ApartIfOffersKept(s: Store, t: Store, q: Reservation)
    requires t.providers == s.providers
    requires forall k: OfferKey | k.product in ProductsOf(q.items) :: (k in t.offers <==> k in s.offers) && (k in s.offers ==> t.offers[k] == s.offers[k])
    ensures Apart(s, t, q)
  {
  }

  predicate OtherProducts(r: Reservation, q: Reservation) {
    forall a | a in r.allocations :: a.key.product !in ProductsOf(q.items)
  }

  function AllocatedProducts(r: Reservation): set<Uuid> {
    set a | a in r.allocations :: a.key.product
  }

  /** A customer's confirm or cancel of a reservation for other products stays apart. */
  lemma UserStepIsApart(s: Store, step: Step, q: Reservation)
    requires step.ConfirmStep? || step.CancelStep?
    requires step.id in s.reservations ==> OtherProducts(s.reservations[step.id], q)
    ensures Apart(s, Apply(s, step), q)
  {
    hide SettleFrom, Overlay, ProductsOf;
    var t := Apply(s, step);
    forall k: OfferKey | k.product in ProductsOf(q.items)
      ensures (k in t.offers <==> k in s.offers) && (k in s.offers ==> t.offers[k] == s.offers[k])
    {
      if Owns(s, step.id, step.user) {
        var r := s.reservations[step.id];
        var d := if step.ConfirmStep? then ToConfirm else ToRelease;
        if SettleFrom(d, USER_CONTEXT, s.providers, Books(s.offers, r.allocations), 0, step.replies).Commit? {
          SettlingStaysWithin(s, Books(s.offers, r.allocations), AllocatedProducts(r), d, USER_CONTEXT, step.replies, k);
        }
      }
    }
    ApartIfOffersKept(s, t, q);
  }

  /** So does an operator's change of the stock of another product. */
  lemma LevelStepIsApart(s: Store, step: Step, q: Reservation)
    requires (step.SetLevelStep? && step.key.product !in ProductsOf(q.items)) || (step.RemoveLevelStep? && step.key.product !in ProductsOf(q.items))
    ensures Apart(s, Apply(s, step), q)
  {
    hide Overlay, ProductsOf;
    ApartIfOffersKept(s, Apply(s, step), q);
  }
}
