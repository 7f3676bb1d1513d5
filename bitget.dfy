/**
 * exchanges/bitget.py: the symbol filter of `get_trading_pairs` and the
 * price reading of `get_price`, on the decoded replies.
 */
module Bitget {
  import opened Collections
  import opened Text
  import opened Responses

  /** One product of `data`: the field the listing reads. */
  datatype Product = Product(symbol: Option<string>)

  /** The products reply, whose `data` key may be missing. */
  datatype ProductsReply = ProductsReply(data: Option<seq<Product>>)

  /** The list comprehension: the present, non-empty symbols, unchanged and in order. */
  function Symbols(products: seq<Product>): (r: seq<string>)
    ensures |r| <= |products|
    ensures forall p :: p in r <==> p != "" && Product(Some(p)) in products
  {
    if products == [] then []
    else
      var p := products[0];
      (if p.symbol.Some? && Truthy(p.symbol.value) then [p.symbol.value] else []) + Symbols(products[1..])
  }

  /** The filter keeps the order of `data`: it distributes over concatenation. */
  lemma {:induction false} SymbolsAppend(a: seq<Product>, b: seq<Product>)
    ensures Symbols(a + b) == Symbols(a) + Symbols(b)
  {
    if a == [] {
      assert a + b == b;
    } else {
      assert (a + b)[0] == a[0] && (a + b)[1..] == a[1..] + b;
      SymbolsAppend(a[1..], b);
    }
  }

  /** `get_trading_pairs`: a failed request or a missing `data` give `[]`. */
  function GetTradingPairs(reply: Response<ProductsReply>): (pairs: seq<string>)
    ensures reply.Failed? || reply.body.data.None? ==> pairs == []
    ensures reply.Decoded? && reply.body.data.Some? ==> pairs == Symbols(reply.body.data.value)
  {
    if reply.Failed? || reply.body.data.None? then [] else Symbols(reply.body.data.value)
  }

  /** The ticker reply, whose `data` object may be missing. */
  datatype TickerReply = TickerReply(data: Option<Ticker>)

  /**
   * `get_price`: a missing `data` or `last` reads as 0.0; a failed request or
   * an unparsable `last` gives `None`.
   */
  function GetPrice(reply: Response<TickerReply>): (price: Option<real>)
    ensures reply.Failed? ==> price.None?
    ensures reply.Decoded? && (reply.body.data.None? || reply.body.data.value.price.None?) ==> price == Some(0.0)
    ensures reply.Decoded? && reply.body.data.Some? ==> price == ReadPrice(reply.body.data.value.price)
  {
    match reply
    case Failed => None
    case Decoded(body) => if body.data.None? then Some(0.0) else ReadPrice(body.data.value.price)
  }
}
