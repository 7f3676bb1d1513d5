/**
 * exchanges/bitstamp.py: the loop of `get_trading_pairs` over the decoded
 * trading-pairs list, and the request symbol and price reading of `get_price`.
 */
module Bitstamp {
  import opened Collections
  import opened Text
  import opened Responses

  /** One product of the trading-pairs reply: the field the listing reads. */
  datatype Product = Product(urlSymbol: Option<string>)

  /** `product.get("url_symbol")` is present and truthy. */
  predicate Listed(product: Product) { product.urlSymbol.Some? && Truthy(product.urlSymbol.value) }

  /** The pairs the loop has appended after `products`: each listed `url_symbol`, upper-cased. */
  function ListedPairs(products: seq<Product>): seq<string> {
    if products == [] then []
    else
      var n := |products| - 1;
      ListedPairs(products[..n]) + (if Listed(products[n]) then [Upper(products[n].urlSymbol.value)] else [])
  }

  /** `get_trading_pairs`: the loop, or `[]` when the request failed. */
  method GetTradingPairs(reply: Response<seq<Product>>) returns (pairs: seq<string>)
    ensures reply.Failed? ==> pairs == []
    ensures reply.Decoded? ==> pairs == ListedPairs(reply.body)
  {
    if reply.Failed? {
      return [];
    }
    var products := reply.body;
    pairs := [];
    var k := 0;
    while k < |products|
      invariant 0 <= k <= |products|
      invariant pairs == ListedPairs(products[..k])
    {
      assert products[..k + 1][..k] == products[..k];
      var urlSymbol := products[k].urlSymbol;
      if urlSymbol.Some? && urlSymbol.value != "" {
        pairs := pairs + [Upper(urlSymbol.value)];
      }
      k := k + 1;
    }
    assert products[..k] == products;
  }

  /**
   * The listed pairs are exactly the upper-cased truthy `url_symbol`s: none
   * has a lower-case letter, and products without one are skipped.
   */
  lemma {:induction false} ListedPairsMembers(products: seq<Product>)
    ensures |ListedPairs(products)| <= |products|
    ensures forall p :: p in ListedPairs(products) ==> NoLowerAscii(p) && p != ""
    ensures forall p :: p in ListedPairs(products) <==>
              exists i :: 0 <= i < |products| && Listed(products[i]) && Upper(products[i].urlSymbol.value) == p
  {
    if products != [] {
      var n := |products| - 1;
      var front := products[..n];
      ListedPairsMembers(front);
      assert forall i :: 0 <= i < n ==> front[i] == products[i];
      forall p | p in ListedPairs(products)
        ensures exists i :: 0 <= i < |products| && Listed(products[i]) && Upper(products[i].urlSymbol.value) == p
      {
        if p in ListedPairs(front) {
          var i :| 0 <= i < n && Listed(front[i]) && Upper(front[i].urlSymbol.value) == p;
          assert products[i] == front[i];
        } else {
          assert Listed(products[n]) && Upper(products[n].urlSymbol.value) == p;
        }
      }
    }
  }

  /** The listing keeps the order of the reply: it distributes over concatenation. */
  lemma {:induction false} ListedPairsAppend(a: seq<Product>, b: seq<Product>)
    ensures ListedPairs(a + b) == ListedPairs(a) + ListedPairs(b)
    decreases |b|
  {
    if b == [] {
      assert a + b == a;
    } else {
      var n := |b| - 1;
      assert (a + b)[..|a + b| - 1] == a + b[..n];
      assert (a + b)[|a + b| - 1] == b[n];
      ListedPairsAppend(a, b[..n]);
    }
  }

  /** `pair.lower()`, the symbol `get_price` requests. */
  function RequestSymbol(pair: string): (r: string)
    ensures |r| == |pair| && NoUpperAscii(r)
  {
    Lower(pair)
  }

  /**
   * A listed pair is requested under its original `url_symbol` when that
   * symbol has no upper-case letters (Bitstamp's are lower-case).
   */
  lemma RequestListedSymbol(urlSymbol: string)
    requires NoUpperAscii(urlSymbol)
    ensures RequestSymbol(Upper(urlSymbol)) == urlSymbol
  {
    LowerUpper(urlSymbol);
  }

  /**
   * `get_price`: `float(data.get("last", 0))`; a failed request or an
   * unparsable `last` gives `None`, a missing one 0.0.
   */
  function GetPrice(reply: Response<Ticker>): (price: Option<real>)
    ensures reply.Failed? ==> price.None?
    ensures reply.Decoded? && reply.body.price.None? ==> price == Some(0.0)
    ensures reply.Decoded? ==> price == ReadPrice(reply.body.price)
  {
    if reply.Failed? then None else ReadPrice(reply.body.price)
  }
}
