/**
 * order_manager.py: `OrderManager`, an append-only log of simulated orders.
 * The log message is output only.
 */
module OrderManagement {
  import opened Collections

  /** The recorded `price`: the argument, or `'market'` when it is falsy. */
  datatype OrderPrice = Market | Limit(value: real)

  /** One `order_details` record. */
  datatype Order = Order(exchange: string, symbol: string, orderType: string, side: string,
                         amount: real, price: OrderPrice)

  /** `price if price else 'market'`: `None` and 0 are falsy. */
  function RecordedPrice(price: Option<real>): (p: OrderPrice)
    ensures p == Market <==> price.None? || price.value == 0.0
    ensures p.Limit? ==> price == Some(p.value) && p.value != 0.0
  {
    if price.Some? && price.value != 0.0 then Limit(price.value) else Market
  }

  class OrderManager {
    var orders: seq<Order>
    /** The number of `log_order` calls since construction. */
    ghost var logged: nat

    ghost predicate Valid()
      reads this
    {
      |orders| == logged
    }

    /** `__init__`: no orders yet. */
    constructor ()
      ensures Valid()
      ensures orders == [] && logged == 0
    {
      orders := [];
      logged := 0;
    }

    /**
     * `log_order`: appends one record built from the arguments verbatim, the
     * price falling back to `Market`; earlier records are unchanged.
     */
    method LogOrder(exchangeName: string, symbol: string, orderType: string, side: string,
                    amount: real, price: Option<real>)
      requires Valid()
      modifies this
      ensures Valid()
      ensures logged == old(logged) + 1
      ensures orders == old(orders) + [Order(exchangeName, symbol, orderType, side, amount, RecordedPrice(price))]
    {
      orders := orders + [Order(exchangeName, symbol, orderType, side, amount, RecordedPrice(price))];
      logged := logged + 1;
    }

    /** `get_orders`: the current list, one record per `log_order` call. */
    method GetOrders() returns (r: seq<Order>)
      requires Valid()
      ensures r == orders && |r| == logged
    {
      r := orders;
    }
  }
}
