/** Offer rows and the guarded updates that move stock through them. */
module Stock {
  import opened Types

  function Reserved(offers: Offers, k: OfferKey): int {
    if k in offers then offers[k].reserved else 0
  }

  function OnHand(offers: Offers, k: OfferKey): int {
    if k in offers then offers[k].onHand else 0
  }

  /** The check constraints of the offers table. */
  predicate OfferOk(o: Offer) {
    0 <= o.reserved <= o.onHand && 1 <= o.version && 0 <= o.priority
  }

  predicate OffersOk(offers: Offers) {
    forall k | k in offers :: OfferOk(offers[k])
  }

  /** Guarded UPDATE: reserve units that are on hand and free. */
  function TryHold(offers: Offers, k: OfferKey, quantity: int): Option<Offers> {
    if k in offers && offers[k].onHand - offers[k].reserved >= quantity then
      var o := offers[k];
      Some(offers[k := o.(reserved := o.reserved + quantity, version := o.version + 1)])
    else None
  }

  /** Guarded UPDATE: reserved units leave the stock. */
  function ConfirmHold(offers: Offers, k: OfferKey, quantity: int): Option<Offers> {
    if k in offers && offers[k].onHand >= quantity && offers[k].reserved >= quantity then
      var o := offers[k];
      Some(offers[k := o.(onHand := o.onHand - quantity, reserved := o.reserved - quantity, version := o.version + 1)])
    else None
  }

  /** Guarded UPDATE: reserved units become free again. */
  function ReleaseHold(offers: Offers, k: OfferKey, quantity: int): Option<Offers> {
    if k in offers && offers[k].reserved >= quantity then
      var o := offers[k];
      Some(offers[k := o.(reserved := o.reserved - quantity, version := o.version + 1)])
    else None
  }

  function Max(a: int, b: int): int { if a >= b then a else b }

  /** A fresh availability reading overwrites the snapshot but never undercuts live holds. */
  function Observe(offers: Offers, k: OfferKey, available: int): Offers {
    if k in offers then
      var o := offers[k];
      offers[k := o.(onHand := Max(o.reserved, available), version := o.version + 1)]
    else offers
  }

  /** Upsert with a guarded conflict branch; an unchanged row keeps its version. */
  function SetLevel(offers: Offers, k: OfferKey, onHand: int, priority: int, group: Option<Uuid>): Tx<Offers> {
    if onHand < 0 || priority < 0 then Raise(IntegrityError)
    else if k !in offers then Commit(offers[k := Offer(onHand, 0, 1, priority, group)])
    else
      var o := offers[k];
      if o.reserved > onHand then Raise(InventoryBelowReservedError)
      else if o.onHand == onHand && o.priority == priority && o.group == group then Commit(offers)
      else Commit(offers[k := o.(onHand := onHand, priority := priority, group := group, version := o.version + 1)])
  }

  function RemoveLevel(offers: Offers, k: OfferKey): Tx<Offers> {
    if k !in offers then Commit(offers)
    else if offers[k].reserved == 0 then Commit(offers - {k})
    else Raise(InventoryHasActiveReservationsError)
  }

  /** Holding and then releasing the same units restores both counters; only the version remembers it. */
  lemma HoldThenReleaseRestores(offers: Offers, k: OfferKey, quantity: int)
    requires OffersOk(offers) && quantity > 0
    requires TryHold(offers, k, quantity).Some?
    ensures var held := TryHold(offers, k, quantity).value;
            && OffersOk(held)
            && ReleaseHold(held, k, quantity) == Some(offers[k := offers[k].(version := offers[k].version + 2)])
  {
    var held := TryHold(offers, k, quantity).value;
    var o := offers[k];
    assert held[k := o.(version := o.version + 2)] == offers[k := o.(version := o.version + 2)];
  }
}
