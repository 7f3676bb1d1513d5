/**
 * exchanges/kucoin.py: the listing of `get_trading_pairs` and the symbol
 * formatting and price reading of `get_price`, on the decoded replies.
 */
module Kucoin {
  import opened Collections
  import opened Text
  import opened Responses

  /** One entry of `data` in the symbols reply: the fields the listing reads. */
  datatype SymbolInfo = SymbolInfo(symbol: Option<string>, trading: Option<bool>)

  /** The symbols reply, whose `data` key may be missing. */
  datatype SymbolsReply = SymbolsReply(data: Option<seq<SymbolInfo>>)

  /** `item.get("trading", False)` is truthy. */
  predicate Trading(item: SymbolInfo) { item.trading == Some(true) }

  /**
   * The list comprehension over `data`: the dash-free symbol of every trading
   * item, in order; `None` when a trading item has no `symbol` (KeyError).
   */
  function TradingSymbols(items: seq<SymbolInfo>): (r: Option<seq<string>>)
    ensures r.Some? ==> |r.value| <= |items| && forall p :: p in r.value ==> '-' !in p
  {
    if items == [] then Some([])
    else
      var rest := TradingSymbols(items[1..]);
      if !Trading(items[0]) then rest
      else if items[0].symbol.None? || rest.None? then None
      else Some([RemoveChar(items[0].symbol.value, '-')] + rest.value)
  }

  /** `get_trading_pairs`: a failed request, a missing `data` or a KeyError give `[]`. */
  function GetTradingPairs(reply: Response<SymbolsReply>): (pairs: seq<string>)
    ensures reply.Failed? || reply.body.data.None? ==> pairs == []
    ensures forall p :: p in pairs ==> '-' !in p
  {
    if reply.Failed? || reply.body.data.None? then []
    else match TradingSymbols(reply.body.data.value)
      case None => []
      case Some(p) => p
  }

  /** A trading item without a symbol. */
  predicate MissingSymbol(item: SymbolInfo) { Trading(item) && item.symbol.None? }

  /**
   * The listing fails exactly when some trading item lacks its symbol;
   * otherwise it holds exactly the dash-stripped symbols of the trading items.
   */
  lemma {:induction false} TradingSymbolsMembers(items: seq<SymbolInfo>)
    ensures TradingSymbols(items).None? <==> exists i :: 0 <= i < |items| && MissingSymbol(items[i])
    ensures TradingSymbols(items).Some? ==>
              forall p :: p in TradingSymbols(items).value <==>
                exists i :: 0 <= i < |items| && Trading(items[i]) && RemoveChar(items[i].symbol.value, '-') == p
  {
    if items != [] {
      var tail := items[1..];
      TradingSymbolsMembers(tail);
      assert forall i :: 0 < i < |items| ==> items[i] == tail[i - 1];
      if TradingSymbols(tail).None? {
        var i :| 0 <= i < |tail| && MissingSymbol(tail[i]);
        assert MissingSymbol(items[i + 1]);
      }
      if TradingSymbols(items).Some? {
        var r := TradingSymbols(items).value;
        forall p | p in r
          ensures exists i :: 0 <= i < |items| && Trading(items[i]) && RemoveChar(items[i].symbol.value, '-') == p
        {
          if p in TradingSymbols(tail).value {
            var i :| 0 <= i < |tail| && Trading(tail[i]) && RemoveChar(tail[i].symbol.value, '-') == p;
            assert items[i + 1] == tail[i];
          }
        }
      }
    }
  }

  /** The comprehension keeps the order of `data`: it distributes over concatenation. */
  lemma {:induction false} TradingSymbolsAppend(a: seq<SymbolInfo>, b: seq<SymbolInfo>)
    requires TradingSymbols(a).Some? && TradingSymbols(b).Some?
    ensures TradingSymbols(a + b) == Some(TradingSymbols(a).value + TradingSymbols(b).value)
  {
    if a == [] {
      assert a + b == b;
      assert [] + TradingSymbols(b).value == TradingSymbols(b).value;
    } else {
      assert (a + b)[0] == a[0] && (a + b)[1..] == a[1..] + b;
      TradingSymbolsAppend(a[1..], b);
      var tail := TradingSymbols(a[1..]).value + TradingSymbols(b).value;
      if Trading(a[0]) {
        var first := [RemoveChar(a[0].symbol.value, '-')];
        assert TradingSymbols(a).value == first + TradingSymbols(a[1..]).value;
        assert TradingSymbols(a + b) == Some(first + tail);
        assert first + tail == (first + TradingSymbols(a[1..]).value) + TradingSymbols(b).value;
      }
    }
  }

  /** `pair[:3] + "-" + pair[3:]` unless the pair already has a '-'. */
  function FormatPair(pair: string): (r: string)
    ensures '-' in r
    ensures '-' in pair ==> r == pair
    ensures '-' !in pair ==> |r| == |pair| + 1
  {
    if '-' in pair then pair
    else
      var cut := if |pair| < 3 then |pair| else 3;
      pair[..cut] + "-" + pair[cut..]
  }

  /** Deleting the inserted '-' gives back a pair that had none. */
  lemma FormatPairRoundTrip(pair: string)
    requires '-' !in pair
    ensures RemoveChar(FormatPair(pair), '-') == pair
  {
    var cut := if |pair| < 3 then |pair| else 3;
    assert '-' !in pair[..cut] && '-' !in pair[cut..];
    RemoveCharAppend(pair[..cut] + "-", pair[cut..], '-');
    RemoveCharAppend(pair[..cut], "-", '-');
    assert RemoveChar("-", '-') == [];
    assert pair[..cut] + pair[cut..] == pair;
  }

  /** The listing strips the one '-' of `base-quote`. */
  lemma StripListed(base: string, quote: string)
    requires '-' !in base && '-' !in quote
    ensures RemoveChar(base + "-" + quote, '-') == base + quote
  {
    RemoveCharAppend(base, "-", '-');
    RemoveCharAppend(base + "-", quote, '-');
    RemoveDash();
  }

  lemma RemoveDash()
    ensures RemoveChar("-", '-') == []
  {
    assert "-"[1..] == [];
  }

  /** A listed Kucoin symbol with a three-character base is formatted back into itself. */
  lemma ListedSymbolRoundTrip(base: string, quote: string)
    requires '-' !in base && '-' !in quote && |base| == 3
    ensures FormatPair(RemoveChar(base + "-" + quote, '-')) == base + "-" + quote
  {
    StripListed(base, quote);
    var stripped := base + quote;
    assert '-' !in stripped;
    assert stripped[..3] == base && stripped[3..] == quote;
  }

  /**
   * A base longer than three characters is split at the wrong place: the
   * listed "DOGE-USDT" is stored as "DOGEUSDT" and requested as "DOG-EUSDT".
   */
  lemma LongBaseMisformatted(base: string, quote: string)
    requires '-' !in base && '-' !in quote && |base| > 3
    ensures FormatPair(RemoveChar(base + "-" + quote, '-')) == base[..3] + "-" + (base[3..] + quote)
    ensures FormatPair(RemoveChar(base + "-" + quote, '-')) != base + "-" + quote
  {
    StripListed(base, quote);
    FormatLongBase(base, quote);
    DashMoved(base, quote);
  }

  lemma FormatLongBase(base: string, quote: string)
    requires '-' !in base && '-' !in quote && |base| > 3
    ensures FormatPair(base + quote) == base[..3] + "-" + (base[3..] + quote)
  {
    var stripped := base + quote;
    assert '-' !in stripped;
    assert stripped[..3] == base[..3];
    assert stripped[3..] == base[3..] + quote;
  }

  lemma DashMoved(base: string, quote: string)
    requires '-' !in base && |base| > 3
    ensures base[..3] + "-" + (base[3..] + quote) != base + "-" + quote
  {
    var moved := base[..3] + "-" + (base[3..] + quote);
    assert moved[3] == '-';
    assert (base + "-" + quote)[3] == base[3];
    assert base[3] in base;
  }

  /** The level-1 order-book reply, whose `data` object may be missing. */
  datatype Level1Reply = Level1Reply(data: Option<Ticker>)

  /**
   * `get_price` after the request for `FormatPair(pair)`: a missing `data` or
   * `price` reads as "0", a failed request or an unparsable price gives `None`.
   */
  function GetPrice(reply: Response<Level1Reply>): (price: Option<real>)
    ensures reply.Failed? ==> price.None?
    ensures reply.Decoded? && reply.body.data.None? ==> price == Some(0.0)
    ensures reply.Decoded? && reply.body.data.Some? ==> price == ReadPrice(reply.body.data.value.price)
  {
    match reply
    case Failed => None
    case Decoded(body) => if body.data.None? then Some(0.0) else ReadPrice(body.data.value.price)
  }
}
