/** Guarded updates on offer rows, the provider router that drives them, and the operator's writes. */
module InventoryRepository {
  import opened Types
  import opened Database
  import Stock
  import Transactions
  import opened Routing

  class Inventory {
    const session: Session

    constructor (session: Session)
      ensures this.session == session
    {
      this.session := session;
    }

    method TryHold(k: OfferKey, quantity: int) returns (level: Option<Offer>)
      modifies session`offers
      ensures match Stock.TryHold(old(session.offers), k, quantity)
              case None => level == None && session.offers == old(session.offers)
              case Some(offers) => session.offers == offers && k in offers && level == Some(offers[k])
      ensures level.Some? <==> k in old(session.offers) && old(session.offers)[k].reserved + quantity <= old(session.offers)[k].onHand
      ensures level.Some? ==>
                var o := old(session.offers)[k];
                session.offers == old(session.offers)[k := Offer(o.onHand, o.reserved + quantity, o.version + 1, o.priority, o.group)]
    {
      if k in session.offers && session.offers[k].onHand - session.offers[k].reserved >= quantity {
        var o := session.offers[k];
        session.offers := session.offers[k := o.(reserved := o.reserved + quantity, version := o.version + 1)];
        return Some(session.offers[k]);
      }
      return None;
    }

    method ConfirmHold(k: OfferKey, quantity: int) returns (level: Option<Offer>)
      modifies session`offers
      ensures match Stock.ConfirmHold(old(session.offers), k, quantity)
              case None => level == None && session.offers == old(session.offers)
              case Some(offers) => session.offers == offers && k in offers && level == Some(offers[k])
      ensures level.Some? <==> k in old(session.offers) && old(session.offers)[k].onHand >= quantity && old(session.offers)[k].reserved >= quantity
      ensures level.Some? ==>
                var o := old(session.offers)[k];
                session.offers == old(session.offers)[k := Offer(o.onHand - quantity, o.reserved - quantity, o.version + 1, o.priority, o.group)]
    {
      if k in session.offers && session.offers[k].onHand >= quantity && session.offers[k].reserved >= quantity {
        var o := session.offers[k];
        session.offers := session.offers[k := o.(onHand := o.onHand - quantity, reserved := o.reserved - quantity, version := o.version + 1)];
        return Some(session.offers[k]);
      }
      return None;
    }

    method ReleaseHold(k: OfferKey, quantity: int) returns (level: Option<Offer>)
      modifies session`offers
      ensures match Stock.ReleaseHold(old(session.offers), k, quantity)
              case None => level == None && session.offers == old(session.offers)
              case Some(offers) => session.offers == offers && k in offers && level == Some(offers[k])
      ensures level.Some? <==> k in old(session.offers) && old(session.offers)[k].reserved >= quantity
      ensures level.Some? ==>
                var o := old(session.offers)[k];
                session.offers == old(session.offers)[k := Offer(o.onHand, o.reserved - quantity, o.version + 1, o.priority, o.group)]
    {
      if k in session.offers && session.offers[k].reserved >= quantity {
        var o := session.offers[k];
        session.offers := session.offers[k := o.(reserved := o.reserved - quantity, version := o.version + 1)];
        return Some(session.offers[k]);
      }
      return None;
    }

    method ObserveAvailability(k: OfferKey, reply: AvailabilityReply)
      modifies session`offers
      ensures session.offers == if reply.Fresh? && reply.available.Some?
                                then Stock.Observe(old(session.offers), k, reply.available.value)
                                else old(session.offers)
      ensures session.offers.Keys == old(session.offers).Keys
      ensures forall j | j in session.offers && (j != k || !reply.Fresh? || reply.available.None?) :: session.offers[j] == old(session.offers)[j]
      ensures k in session.offers && reply.Fresh? && reply.available.Some? ==>
                var before, after, available := old(session.offers)[k], session.offers[k], reply.available.value;
                && after == Offer(after.onHand, before.reserved, before.version + 1, before.priority, before.group)
                && after.onHand >= before.reserved && after.onHand >= available
                && (after.onHand == before.reserved || after.onHand == available)
    {
      if !reply.Fresh? || reply.available.None? { return; }
      if k in session.offers {
        var o := session.offers[k];
        session.offers := session.offers[k := o.(onHand := Stock.Max(o.reserved, reply.available.value), version := o.version + 1)];
      }
    }

    /** Routes one reservation item; the calls made are returned for inspection. */
    method TryHoldSelected(item: Item, replies: Uuid -> CandidateReply) returns (end: RoutingEnd, calls: seq<Call>)
      modifies session`offers
      ensures Routing(session.offers, calls, end) == RouteItem(session.providers, old(session.offers), item, replies)
      ensures forall j | 0 <= j < |calls| ::
                var p := calls[j].provider;
                && OfferKey(item.product, p) in old(session.offers) && p in session.providers
                && session.providers[p].enabled && session.providers[p].hold
                && (session.providers[p].kind.Internal? || session.providers[p].http)
    {
      var candidates := Candidates(session.providers, session.offers, OfferKey(item.product, item.provider));
      var router := new ProviderRouter(this, candidates);
      end, calls := router.Hold(Demand(item.product, item.quantity), replies);
      forall j | 0 <= j < |calls| ensures calls[j].provider in IdsOf(calls) { assert IdsOf(calls)[j] == calls[j].provider; }
      forall p | p in IdsOf(calls)
        ensures OfferKey(item.product, p) in old(session.offers) && p in session.providers && session.providers[p].enabled
                && session.providers[p].hold && (session.providers[p].kind.Internal? || session.providers[p].http)
      {
        CalledColumns(session.providers, old(session.offers), item, replies, p);
      }
    }

    method SetLevel(k: OfferKey, onHand: int, priority: int, group: Option<Uuid>) returns (error: Option<Error>)
      modifies session`offers
      ensures match Transactions.SetStock(old(session.Snapshot()), k, onHand, priority, group)
              case Raise(e) => error == Some(e) && session.offers == old(session.offers)
              case Commit(t) => error == None && session.Snapshot() == t
      ensures error == Some(InventoryBelowReservedError)
              <==> onHand >= 0 && priority >= 0 && k in old(session.offers) && old(session.offers)[k].reserved > onHand
    {
      if onHand < 0 || priority < 0 { return Some(IntegrityError); }
      if k !in session.offers {
        if k.product !in session.products || k.provider !in session.providers { return Some(IntegrityError); }
        session.offers := session.offers[k := Offer(onHand, 0, 1, priority, group)];
        return None;
      }
      var o := session.offers[k];
      if o.reserved <= onHand && (o.onHand != onHand || o.priority != priority || o.group != group) {
        session.offers := session.offers[k := o.(onHand := onHand, priority := priority, group := group, version := o.version + 1)];
        return None;
      }
      return if o.reserved > onHand then Some(InventoryBelowReservedError) else None;
    }

    method RemoveLevel(k: OfferKey) returns (error: Option<Error>, removed: bool)
      modifies session`offers
      ensures match Transactions.RemoveStock(old(session.Snapshot()), k)
              case Raise(e) => error == Some(e) && session.offers == old(session.offers)
              case Commit(t) => error == None && session.Snapshot() == t && (removed <==> k in old(session.offers))
      ensures removed <==> k in old(session.offers) && old(session.offers)[k].reserved == 0
      ensures error == if k in old(session.offers) && old(session.offers)[k].reserved != 0
                       then Some(InventoryHasActiveReservationsError) else None
      ensures session.offers == if removed then old(session.offers) - {k} else old(session.offers)
    {
      if k in session.offers && session.offers[k].reserved == 0 {
        session.offers := session.offers - {k};
        return None, true;
      }
      if k !in session.offers { return None, false; }
      return Some(InventoryHasActiveReservationsError), false;
    }
  }

  /** Tries hold-capable providers in the order given, and stops at a hold, an unknown outcome or an error. */
  class ProviderRouter {
    const inventory: Inventory
    const providers: seq<Uuid>

    constructor (inventory: Inventory, providers: seq<Uuid>)
      ensures this.inventory == inventory && this.providers == providers
    {
      this.inventory := inventory;
      this.providers := providers;
    }

    method Ask(c: Uuid, d: Demand, reply: HoldReply) returns (answer: HoldReply)
      modifies inventory.session`offers
      ensures Answer(inventory.session.offers, answer)
              == AskHold(ProviderRow(inventory.session.providers, c), old(inventory.session.offers),
                                 OfferKey(d.product, c), d.quantity, reply)
    {
      if ProviderRow(inventory.session.providers, c).kind.Internal? {
        var level := inventory.TryHold(OfferKey(d.product, c), d.quantity);
        return if level.None? then OutOfStock else HoldReply.Held(None);
      }
      return reply;
    }

    method Hold(d: Demand, replies: Uuid -> CandidateReply) returns (end: RoutingEnd, calls: seq<Call>)
      modifies inventory.session`offers
      ensures Routing(inventory.session.offers, calls, end)
              == RouteFrom(inventory.session.providers, old(inventory.session.offers), d, providers, 0, [], replies)
    {
      calls := [];
      var i := 0;
      while i < |providers|
        invariant i <= |providers|
        invariant RouteFrom(inventory.session.providers, old(inventory.session.offers), d, providers, 0, [], replies)
               == RouteFrom(inventory.session.providers, inventory.session.offers, d, providers, i, calls, replies)
      {
        var c := providers[i];
        if AsksAvailability(ProviderRow(inventory.session.providers, c)) {
          var availability := replies(c).availability;
          if availability.AvailabilityRaised? { return RaisedAt(c), calls; }
          inventory.ObserveAvailability(OfferKey(d.product, c), availability);
          if availability.Unavailable? || (availability.Fresh? && availability.available.Some? && availability.available.value < d.quantity) {
            i := i + 1;
            continue;
          }
        }
        var answer := Ask(c, d, replies(c).hold);
        calls := calls + [Call(c, answer)];
        match answer {
          case Held(reference) => return RoutedTo(ProviderHold(c, reference)), calls;
          case Unknown => return UnknownAt(c), calls;
          case Raised => return RaisedAt(c), calls;
          case _ => i := i + 1;
        }
      }
      return Exhausted, calls;
    }
  }
}
