/** The tables as a mutable object: what a database session reads and writes in place. */
module Database {
  import opened Types

  class Session {
    var products: set<Uuid>
    var providers: Providers
    var offers: Offers
    var reservations: Reservations
    var orders: seq<Order>

    constructor ()
      ensures Snapshot() == EMPTY_STORE
    {
      products, providers, offers, reservations, orders := {}, map[], map[], map[], [];
    }

    function Snapshot(): Store
      reads this
    {
      Store(products, providers, offers, reservations, orders)
    }
  }
}
