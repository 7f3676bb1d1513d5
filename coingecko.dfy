/**
 * create_list_coingeco.py: the CoinGecko symbol-to-id map and, for every
 * pair of exchanges `i < j`, the coin ids both exchanges' markets resolve to.
 * The decoded token file and what each exchange's `load_markets` returned
 * are parameters.
 */
module Coingecko {
  import opened Collections
  import opened Text
  import opened Pairing

  /** One token of `coingecko_tokens.json`. */
  datatype Token = Token(symbol: string, id: string)

  /** Index of the first token whose upper-cased symbol is `sym`. */
  ghost predicate FirstWithSymbol(tokens: seq<Token>, sym: string, i: int) {
    0 <= i < |tokens| && Upper(tokens[i].symbol) == sym
    && forall j :: 0 <= j < i ==> Upper(tokens[j].symbol) != sym
  }

  /** The map the loop of `load_coingecko_tokens` has built after `tokens`. */
  function CoinMapping(tokens: seq<Token>): map<string, string> {
    if tokens == [] then map[]
    else
      var n := |tokens| - 1;
      var m := CoinMapping(tokens[..n]);
      var sym := Upper(tokens[n].symbol);
      if sym in m then m else m[sym := tokens[n].id]
  }

  /** Every upper-cased symbol is mapped, to the id of the first token with that symbol. */
  lemma {:induction false} CoinMappingFirstWins(tokens: seq<Token>)
    ensures forall i :: 0 <= i < |tokens| ==> Upper(tokens[i].symbol) in CoinMapping(tokens)
    ensures forall sym :: sym in CoinMapping(tokens) ==>
              exists i :: FirstWithSymbol(tokens, sym, i) && CoinMapping(tokens)[sym] == tokens[i].id
  {
    if tokens != [] {
      var n := |tokens| - 1;
      var front := tokens[..n];
      CoinMappingFirstWins(front);
      assert forall i :: 0 <= i < n ==> front[i] == tokens[i];
      var m := CoinMapping(tokens);
      forall sym | sym in m ensures exists i :: FirstWithSymbol(tokens, sym, i) && m[sym] == tokens[i].id {
        if sym in CoinMapping(front) {
          var i :| FirstWithSymbol(front, sym, i) && CoinMapping(front)[sym] == front[i].id;
          assert FirstWithSymbol(tokens, sym, i);
        } else {
          forall j | 0 <= j < n ensures Upper(tokens[j].symbol) != sym {
            assert Upper(front[j].symbol) in CoinMapping(front);
          }
          assert FirstWithSymbol(tokens, sym, n);
        }
      }
    }
  }

  /** `load_coingecko_tokens`: the loop over the decoded token list. */
  method LoadCoingeckoTokens(tokens: seq<Token>) returns (mapping: map<string, string>)
    ensures mapping == CoinMapping(tokens)
  {
    mapping := map[];
    var k := 0;
    while k < |tokens|
      invariant 0 <= k <= |tokens|
      invariant mapping == CoinMapping(tokens[..k])
    {
      assert tokens[..k + 1][..k] == tokens[..k];
      var sym := Upper(tokens[k].symbol);
      if sym !in mapping {
        mapping := mapping[sym := tokens[k].id];
      }
      k := k + 1;
    }
    assert tokens[..k] == tokens;
  }

  /** `coin_mapping.get(sym, sym)`: a symbol CoinGecko does not know is its own id. */
  function CoinId(mapping: map<string, string>, sym: string): (id: string)
    ensures sym !in mapping ==> id == sym
  {
    if sym in mapping then mapping[sym] else sym
  }

  /** The token of a market: `market.split("/")[0].upper()`. */
  function TokenOf(market: string): string {
    Upper(BeforeFirst(market, '/'))
  }

  /** `set(coin_ids.values())` for one exchange's markets (lines 43-47). */
  function CoinIds(markets: seq<string>, mapping: map<string, string>): (ids: set<string>)
    ensures forall m :: m in markets ==> CoinId(mapping, TokenOf(m)) in ids
    ensures forall id :: id in ids ==> exists m :: m in markets && CoinId(mapping, TokenOf(m)) == id
  {
    set m | m in markets :: CoinId(mapping, TokenOf(m))
  }

  /** Markets with different tickers that CoinGecko maps to one id count as common. */
  lemma SharedIdAcrossTickers(mapping: map<string, string>, market1: string, market2: string,
                              markets1: seq<string>, markets2: seq<string>)
    requires market1 in markets1 && market2 in markets2
    requires TokenOf(market1) in mapping && TokenOf(market2) in mapping
    requires mapping[TokenOf(market1)] == mapping[TokenOf(market2)]
    ensures mapping[TokenOf(market1)] in CoinIds(markets1, mapping) * CoinIds(markets2, mapping)
  {
    assert CoinId(mapping, TokenOf(market1)) in CoinIds(markets1, mapping);
    assert CoinId(mapping, TokenOf(market2)) in CoinIds(markets2, mapping);
  }

  /** `list(set(coin_ids1.values()).intersection(set(coin_ids2.values())))` (lines 46-52). */
  method CommonIds(markets1: seq<string>, markets2: seq<string>, mapping: map<string, string>) returns (common: seq<string>)
    ensures NoDuplicates(common)
    ensures forall id :: id in common <==> id in CoinIds(markets1, mapping) && id in CoinIds(markets2, mapping)
  {
    common := ToList(CoinIds(markets1, mapping) * CoinIds(markets2, mapping));
  }

  /** The entry for exchanges `(a, b)` lists each common coin id once. */
  ghost predicate PairDone(all: map<string, seq<string>>, names: seq<string>, markets: seq<seq<string>>,
                           mapping: map<string, string>, a: int, b: int)
    requires 0 <= a < b < |names| == |markets|
  {
    var key := PairKey(names[a], names[b]);
    && key in all && NoDuplicates(all[key])
    && forall id :: id in all[key] <==> id in CoinIds(markets[a], mapping) && id in CoinIds(markets[b], mapping)
  }

  /** Every pair visited before `(i, j)` has its entry. */
  ghost predicate EntriesDone(all: map<string, seq<string>>, names: seq<string>, markets: seq<seq<string>>, mapping: map<string, string>, i: int, j: int)
    requires |markets| == |names|
  {
    forall a, b :: 0 <= a < b < |names| && VisitedBefore(a, b, i, j) ==> PairDone(all, names, markets, mapping, a, b)
  }

  /**
   * Every pair visited before `(i, j)` has its entry, and there is no other
   * key. The conjunction is bound to one name so that the verifier checks
   * each use as a single fact.
   */
  ghost predicate Recorded(all: map<string, seq<string>>, names: seq<string>, markets: seq<seq<string>>, mapping: map<string, string>, i: int, j: int) {
    var recorded := && |markets| == |names|
                    && KeysVisited(all, names, i, j)
                    && EntriesDone(all, names, markets, mapping, i, j);
    recorded
  }

  /** Nothing is recorded before the first pair. */
  lemma RecordedStart(names: seq<string>, markets: seq<seq<string>>, mapping: map<string, string>)
    requires |markets| == |names|
    ensures Recorded(map[], names, markets, mapping, 0, 1)
  {
  }

  /** Recording pair `(i, j)` keeps every earlier entry and completes `(i, j)`. */
  lemma EntriesStep(all: map<string, seq<string>>, updated: map<string, seq<string>>, names: seq<string>, markets: seq<seq<string>>, mapping: map<string, string>, i: int, j: int)
    requires ValidNames(names) && |markets| == |names| && 0 <= i < j < |names|
    requires EntriesDone(all, names, markets, mapping, i, j)
    requires PairDone(updated, names, markets, mapping, i, j)
    requires forall k :: k in all && k != PairKey(names[i], names[j]) ==> k in updated && updated[k] == all[k]
    ensures EntriesDone(updated, names, markets, mapping, i, j + 1)
  {
    forall a, b | 0 <= a < b < |names| && VisitedBefore(a, b, i, j + 1)
      ensures PairDone(updated, names, markets, mapping, a, b)
    {
      if (a, b) != (i, j) {
        PairKeysDistinct(names, a, b, i, j);
        assert PairDone(all, names, markets, mapping, a, b);
      }
    }
  }

  /** Recording the entry of pair `(i, j)` moves the recorded pairs one on. */
  lemma RecordStep(all: map<string, seq<string>>, updated: map<string, seq<string>>, names: seq<string>, markets: seq<seq<string>>, mapping: map<string, string>, i: int, j: int)
    requires ValidNames(names) && |markets| == |names| && 0 <= i < j < |names|
    requires Recorded(all, names, markets, mapping, i, j)
    requires updated.Keys == all.Keys + {PairKey(names[i], names[j])}
    requires PairDone(updated, names, markets, mapping, i, j)
    requires forall k :: k in all && k != PairKey(names[i], names[j]) ==> k in updated && updated[k] == all[k]
    ensures Recorded(updated, names, markets, mapping, i, j + 1)
  {
    KeysVisitedStep(all, updated, names, i, j);
    EntriesStep(all, updated, names, markets, mapping, i, j);
  }

  /** What is recorded at the end of row `i` is what row `i + 1` starts from. */
  lemma RecordedRow(all: map<string, seq<string>>, names: seq<string>, markets: seq<seq<string>>, mapping: map<string, string>, i: int)
    requires 0 <= i < |names|
    requires Recorded(all, names, markets, mapping, i, |names|)
    ensures Recorded(all, names, markets, mapping, i + 1, i + 2)
  {
    KeysVisitedRow(all, names, i);
    forall a, b | 0 <= a < b < |names| && VisitedBefore(a, b, i + 1, i + 2)
      ensures PairDone(all, names, markets, mapping, a, b)
    {
      assert VisitedBefore(a, b, i, |names|);
    }
  }

  /** After the last row every pair, and nothing else, is recorded. */
  lemma RecordedAll(all: map<string, seq<string>>, names: seq<string>, markets: seq<seq<string>>, mapping: map<string, string>)
    requires Recorded(all, names, markets, mapping, |names|, |names| + 1)
    ensures forall key :: key in all <==> IsPairKey(names, key)
    ensures forall a, b :: 0 <= a < b < |names| ==> PairDone(all, names, markets, mapping, a, b)
  {
    KeysVisitedAll(all, names);
    forall a, b | 0 <= a < b < |names| ensures PairDone(all, names, markets, mapping, a, b) {
      assert VisitedBefore(a, b, |names|, |names| + 1);
    }
  }

  /** The common coin ids of exchanges `(i, j)`, recorded into `all`. */
  method CommonIdsPair(names: seq<string>, markets: seq<seq<string>>, mapping: map<string, string>, i: int, j: int, all: map<string, seq<string>>)
    returns (updated: map<string, seq<string>>)
    requires ValidNames(names) && |markets| == |names| && 0 <= i < j < |names|
    requires Recorded(all, names, markets, mapping, i, j)
    ensures Recorded(updated, names, markets, mapping, i, j + 1)
  {
    var common := CommonIds(markets[i], markets[j], mapping);
    updated := all[PairKey(names[i], names[j]) := common];
    RecordStep(all, updated, names, markets, mapping, i, j);
  }

  /** The inner loop over `j` for one `i`. */
  method CommonIdsRow(names: seq<string>, markets: seq<seq<string>>, mapping: map<string, string>, i: int, all: map<string, seq<string>>)
    returns (updated: map<string, seq<string>>)
    requires ValidNames(names) && |markets| == |names| && 0 <= i < |names|
    requires Recorded(all, names, markets, mapping, i, i + 1)
    ensures Recorded(updated, names, markets, mapping, i, |names|)
  {
    updated := all;
    var j := i + 1;
    while j < |names|
      invariant i + 1 <= j <= |names|
      invariant Recorded(updated, names, markets, mapping, i, j)
    {
      updated := CommonIdsPair(names, markets, mapping, i, j, updated);
      j := j + 1;
    }
  }

  /**
   * `generate_common_assets`: one coin-id list per pair of exchanges
   * `i < j`, keyed `name_i-name_j`. `markets[k]` is the market list of `names[k]`.
   */
  method GenerateCommonAssets(names: seq<string>, markets: seq<seq<string>>, tokens: seq<Token>)
    returns (all: map<string, seq<string>>)
    requires ValidNames(names) && |markets| == |names|
    ensures forall key :: key in all <==> IsPairKey(names, key)
    ensures forall a, b :: 0 <= a < b < |names| ==> PairDone(all, names, markets, CoinMapping(tokens), a, b)
  {
    var coinMapping := LoadCoingeckoTokens(tokens);
    all := map[];
    RecordedStart(names, markets, coinMapping);
    var i := 0;
    while i < |names|
      invariant 0 <= i <= |names|
      invariant Recorded(all, names, markets, coinMapping, i, i + 1)
    {
      all := CommonIdsRow(names, markets, coinMapping, i, all);
      RecordedRow(all, names, markets, coinMapping, i);
      i := i + 1;
    }
    RecordedAll(all, names, markets, coinMapping);
  }
}
