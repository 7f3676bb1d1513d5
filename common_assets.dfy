/**
 * common_assets.py: the full symbols ("ABC/USDT") two exchanges list with an
 * allowed quote, optionally filtered by order-book liquidity, and the
 * removal and addition overrides applied to the per-pair lists. What
 * `load_markets` and `fetch_order_book` return, and the two decoded JSON
 * files, are parameters; a failed call or file read is a None.
 */
module CommonAssets {
  import opened Collections
  import opened Text
  import opened Pairing

  /**
   * `base, quote = symbol.split("/")`: None when the split does not give
   * exactly two parts, which raises ValueError.
   */
  function SplitSymbol(symbol: string): (r: Option<(string, string)>)
    ensures '/' !in symbol ==> r.None?
  {
    if '/' in symbol && '/' !in AfterFirst(symbol, '/') then
      Some((BeforeFirst(symbol, '/'), AfterFirst(symbol, '/')))
    else None
  }

  /** A split gives two parts without '/' that rebuild the symbol. */
  lemma SplitSymbolParts(symbol: string)
    requires SplitSymbol(symbol).Some?
    ensures var (base, quote) := SplitSymbol(symbol).value;
              symbol == base + "/" + quote && '/' !in base && '/' !in quote
  {
    assert symbol == BeforeFirst(symbol, '/') + ['/'] + AfterFirst(symbol, '/');
  }

  /** Any base and quote without '/' are split back apart. */
  lemma SplitSymbolOf(base: string, quote: string)
    requires '/' !in base && '/' !in quote
    ensures SplitSymbol(base + "/" + quote) == Some((base, quote))
  {
    SplitAtFirst(base, '/', quote);
    assert base + "/" + quote == base + ['/'] + quote;
  }

  /** A symbol with a '/' that does not unpack into two parts. */
  predicate Malformed(symbol: string) { '/' in symbol && SplitSymbol(symbol).None? }

  /** A symbol that unpacks into a base and an allowed quote. */
  predicate AllowedSymbol(symbol: string, allowedQuotes: seq<string>) {
    SplitSymbol(symbol).Some? && SplitSymbol(symbol).value.1 in allowedQuotes
  }

  /** No symbol with a '/' fails to unpack into two parts. */
  predicate Unpackable(markets: seq<string>) {
    forall s :: s in markets ==> !Malformed(s)
  }

  /** A symbol of one exchange's markets that `load_markets_for_exchange` keeps. */
  predicate Listed(markets: Option<seq<string>>, allowedQuotes: seq<string>, symbol: string) {
    markets.Some? && Unpackable(markets.value) && symbol in markets.value && AllowedSymbol(symbol, allowedQuotes)
  }

  /**
   * After the first `k` symbols: none was malformed, and `result` maps each
   * allowed one to itself. The conjunction is bound to one name so that the
   * verifier checks each use as a single fact.
   */
  ghost predicate LoadedPrefix(result: map<string, string>, symbols: seq<string>, allowedQuotes: seq<string>, k: int)
    requires 0 <= k <= |symbols|
  {
    var loaded := && Unpackable(symbols[..k])
                  && (forall s :: s in result <==> s in symbols[..k] && AllowedSymbol(s, allowedQuotes))
                  && (forall s :: s in result ==> result[s] == s);
    loaded
  }

  lemma LoadedStep(result: map<string, string>, updated: map<string, string>, symbols: seq<string>,
                   allowedQuotes: seq<string>, k: int)
    requires 0 <= k < |symbols| && LoadedPrefix(result, symbols, allowedQuotes, k)
    requires !Malformed(symbols[k])
    requires updated == if AllowedSymbol(symbols[k], allowedQuotes) then result[symbols[k] := symbols[k]] else result
    ensures LoadedPrefix(updated, symbols, allowedQuotes, k + 1)
  {
    assert symbols[..k + 1] == symbols[..k] + [symbols[k]];
  }

  /**
   * `load_markets_for_exchange`: every symbol with one '/' and an allowed
   * quote, mapped to itself; `{}` when loading fails or when one symbol has
   * more than one '/' (the unpacking raises and the handler returns `{}`).
   */
  method LoadMarkets(markets: Option<seq<string>>, allowedQuotes: seq<string>) returns (result: map<string, string>)
    ensures forall s :: s in result <==> Listed(markets, allowedQuotes, s)
    ensures forall s :: s in result ==> result[s] == s
  {
    if markets.None? {
      return map[];
    }
    var symbols := markets.value;
    result := map[];
    var k := 0;
    while k < |symbols|
      invariant 0 <= k <= |symbols|
      invariant LoadedPrefix(result, symbols, allowedQuotes, k)
    {
      var symbol := symbols[k];
      ghost var before := result;
      if '/' in symbol {
        var parts := SplitSymbol(symbol);
        if parts.None? {
          assert Malformed(symbol) && symbol in symbols;
          return map[];
        }
        if parts.value.1 in allowedQuotes {
          result := result[symbol := symbol];
        }
      }
      LoadedStep(before, result, symbols, allowedQuotes, k);
      k := k + 1;
    }
    assert symbols[..k] == symbols;
  }

  /** One order-book level: `[price, volume]`. */
  datatype Level = Level(price: real, volume: real)

  /** A fetched order book; a side may be missing. */
  datatype OrderBook = OrderBook(asks: Option<seq<Level>>, bids: Option<seq<Level>>)

  datatype Side = Asks | Bids

  /** `order_book.get(side, [])`. */
  function SideLevels(book: OrderBook, side: Side): seq<Level> {
    var levels := if side == Asks then book.asks else book.bids;
    if levels.Some? then levels.value else []
  }

  function SumVolumes(levels: seq<Level>): real {
    if levels == [] then 0.0 else levels[0].volume + SumVolumes(levels[1..])
  }

  predicate NonNegativeVolumes(levels: seq<Level>) {
    forall i :: 0 <= i < |levels| ==> levels[i].volume >= 0.0
  }

  lemma {:induction false} SumVolumesAppend(a: seq<Level>, b: seq<Level>)
    ensures SumVolumes(a + b) == SumVolumes(a) + SumVolumes(b)
  {
    if a == [] {
      assert a + b == b;
    } else {
      assert (a + b)[1..] == a[1..] + b;
      SumVolumesAppend(a[1..], b);
    }
  }

  lemma {:induction false} SumVolumesNonNegative(levels: seq<Level>)
    requires NonNegativeVolumes(levels)
    ensures SumVolumes(levels) >= 0.0
  {
    if levels != [] {
      SumVolumesNonNegative(levels[1..]);
    }
  }

  /**
   * `get_total_volume`: the summed volume of the first `levels` entries
   * (Python slice, so a negative count drops entries from the end) of the
   * chosen side; 0 when the fetch failed or the side is missing.
   */
  function TotalVolume(book: Option<OrderBook>, side: Side, levels: int): (v: real)
    ensures book.None? ==> v == 0.0
    ensures book.Some? && (if side == Asks then book.value.asks else book.value.bids).None? ==> v == 0.0
    ensures levels == 0 ==> v == 0.0
  {
    if book.None? then 0.0 else SumVolumes(Take(SideLevels(book.value, side), levels))
  }

  /** With non-negative volumes, checking more levels never lowers the total. */
  lemma TotalVolumeMonotone(book: OrderBook, side: Side, fewer: int, more: int)
    requires 0 <= fewer <= more
    requires NonNegativeVolumes(SideLevels(book, side))
    ensures 0.0 <= TotalVolume(Some(book), side, fewer) <= TotalVolume(Some(book), side, more)
  {
    var all := SideLevels(book, side);
    var a, b := Take(all, fewer), Take(all, more);
    assert b == a + b[|a|..];
    SumVolumesAppend(a, b[|a|..]);
    assert NonNegativeVolumes(a) by {
      forall i | 0 <= i < |a| ensures a[i].volume >= 0.0 { assert a[i] == all[i]; }
    }
    assert NonNegativeVolumes(b[|a|..]) by {
      forall i | 0 <= i < |b[|a|..]| ensures b[|a|..][i].volume >= 0.0 { assert b[|a|..][i] == all[|a| + i]; }
    }
    SumVolumesNonNegative(a);
    SumVolumesNonNegative(b[|a|..]);
  }

  /** The liquidity settings of CONFIG (none of them is defined in config.py, so the defaults apply there). */
  datatype LiquiditySettings = LiquiditySettings(filterLowLiquidity: bool, minLiquidity: map<string, real>,
                                                 levelsToCheck: int)

  /** `min_liq.get(quote, 0)`. */
  function RequiredLiquidity(settings: LiquiditySettings, quote: string): real {
    if quote in settings.minLiquidity then settings.minLiquidity[quote] else 0.0
  }

  /** The liquidity test for one common symbol: asks on exchange 1 and bids on exchange 2 both reach the minimum. */
  predicate Liquid(symbol: string, book1: string -> Option<OrderBook>, book2: string -> Option<OrderBook>,
                   settings: LiquiditySettings) {
    && SplitSymbol(symbol).Some?
    && var required := RequiredLiquidity(settings, SplitSymbol(symbol).value.1);
    && TotalVolume(book1(symbol), Asks, settings.levelsToCheck) >= required
    && TotalVolume(book2(symbol), Bids, settings.levelsToCheck) >= required
  }

  /** Exchange name to the symbol (or None) it uses for a common asset. */
  type Mapping = map<string, Option<string>>

  /** Normalized asset to its per-exchange mapping. */
  type Assets = map<string, Mapping>

  /** The liquidity filter of `get_common_assets_for_pair` (lines 52-66). */
  method FilterLiquid(symbols: set<string>, book1: string -> Option<OrderBook>, book2: string -> Option<OrderBook>,
                      settings: LiquiditySettings)
    returns (filtered: set<string>)
    ensures forall s :: s in filtered <==> s in symbols && Liquid(s, book1, book2, settings)
  {
    filtered := {};
    var rest := symbols;
    while rest != {}
      invariant rest <= symbols
      invariant forall s :: s in filtered <==> s in symbols && s !in rest && Liquid(s, book1, book2, settings)
      decreases |rest|
    {
      var symbol :| symbol in rest;
      var parts := SplitSymbol(symbol);
      if parts.Some? {
        var required := RequiredLiquidity(settings, parts.value.1);
        var vol1 := TotalVolume(book1(symbol), Asks, settings.levelsToCheck);
        var vol2 := TotalVolume(book2(symbol), Bids, settings.levelsToCheck);
        if vol1 >= required && vol2 >= required {
          filtered := filtered + {symbol};
        }
      }
      rest := rest - {symbol};
    }
  }

  /** `{name1: symbol, name2: symbol}`. */
  function BothListings(name1: string, name2: string, symbol: string): (m: Mapping)
    ensures m.Keys == {name1, name2} && m[name1] == Some(symbol) && m[name2] == Some(symbol)
  {
    map[name1 := Some(symbol), name2 := Some(symbol)]
  }

  /** The loop that builds `common` (lines 68-70). */
  method MapToBothListings(name1: string, name2: string, symbols: set<string>) returns (common: Assets)
    ensures common.Keys == symbols
    ensures forall s :: s in common ==> common[s] == BothListings(name1, name2, s)
  {
    common := map[];
    var rest := symbols;
    while rest != {}
      invariant rest <= symbols
      invariant forall s :: s in common <==> s in symbols && s !in rest
      invariant forall s :: s in common ==> common[s] == BothListings(name1, name2, s)
      decreases |rest|
    {
      var symbol :| symbol in rest;
      common := common[symbol := BothListings(name1, name2, symbol)];
      rest := rest - {symbol};
    }
  }

  /**
   * `get_common_assets_for_pair`: the symbols both exchanges keep (and that
   * pass the liquidity test when the filter is on), each mapped to
   * `{name1: symbol, name2: symbol}`. `book1`/`book2` are what
   * `fetch_order_book` returns on each exchange.
   */
  method GetCommonAssetsForPair(name1: string, markets1: Option<seq<string>>, book1: string -> Option<OrderBook>,
                                name2: string, markets2: Option<seq<string>>, book2: string -> Option<OrderBook>,
                                allowedQuotes: seq<string>, settings: LiquiditySettings)
    returns (common: Assets)
    ensures forall s :: s in common <==>
              && Listed(markets1, allowedQuotes, s) && Listed(markets2, allowedQuotes, s)
              && (settings.filterLowLiquidity ==> Liquid(s, book1, book2, settings))
    ensures forall s :: s in common ==> common[s] == BothListings(name1, name2, s)
  {
    var m1 := LoadMarkets(markets1, allowedQuotes);
    var m2 := LoadMarkets(markets2, allowedQuotes);
    var commonSymbols := m1.Keys * m2.Keys;
    ghost var listed := commonSymbols;
    assert forall s :: s in listed <==> Listed(markets1, allowedQuotes, s) && Listed(markets2, allowedQuotes, s);
    if settings.filterLowLiquidity {
      commonSymbols := FilterLiquid(commonSymbols, book1, book2, settings);
    }
    assert forall s :: s in commonSymbols <==> s in listed && (settings.filterLowLiquidity ==> Liquid(s, book1, book2, settings));
    common := MapToBothListings(name1, name2, commonSymbols);
  }

  /** `should_remove`: the asset is one of the listed names or a symbol of one of them as base. */
  function ShouldRemove(asset: string, removeList: seq<string>): (b: bool)
    ensures b <==> exists r :: r in removeList && (asset == r || StartsWith(asset, r + "/"))
  {
    if removeList == [] then false
    else
      var r := removeList[0];
      if asset == r || StartsWith(asset, r + "/") then true
      else
        assert forall x :: x in removeList <==> x == r || x in removeList[1..];
        ShouldRemove(asset, removeList[1..])
  }

  /** A symbol `other/quote` starts with `base/` only when `base` is its base. */
  lemma SlashPrefix(other: string, quote: string, base: string)
    requires '/' !in base && '/' !in other
    ensures StartsWith(other + "/" + quote, base + "/") ==> base == other
  {
    var asset := other + "/" + quote;
    if StartsWith(asset, base + "/") {
      assert asset == other + ['/'] + quote;
      SplitAtFirst(other, '/', quote);
      var rest := asset[|base| + 1..];
      assert asset == base + ['/'] + rest by {
        assert asset[..|base| + 1] == base + "/";
      }
      SplitAtFirst(base, '/', rest);
    }
  }

  /** `should_remove` matches whole base names only: "ABC" removes "ABC/USDT" but not "ABCD/USDT". */
  lemma ShouldRemoveWholeBase(base: string, other: string, quote: string)
    requires '/' !in base && '/' !in other && base != other
    ensures ShouldRemove(base + "/" + quote, [base])
    ensures !ShouldRemove(other + "/" + quote, [base])
  {
    assert (base + "/" + quote)[..|base| + 1] == base + "/";
    SlashPrefix(other, quote, base);
  }

  /** The assets a remove list leaves (the comprehension on line 106). */
  function RemoveMatching(assets: Assets, removeList: seq<string>): Assets {
    map a | a in assets && !ShouldRemove(a, removeList) :: assets[a]
  }

  /** One entry of the add file for a configuration key. */
  datatype AddEntry = AddEntry(normalized: Option<string>, source: Option<string>, dest: Option<string>)

  /** `normalized` is present and truthy. */
  predicate HasName(e: AddEntry) { e.normalized.Some? && Truthy(e.normalized.value) }

  /**
   * The mapping an entry adds, `{key.split("-")[0]: source, key.split("-")[1]: dest}`;
   * None when the key has no '-' and the second index raises IndexError.
   */
  function EntryMapping(configKey: string, e: AddEntry): (r: Option<Mapping>)
    ensures r.None? <==> '-' !in configKey
  {
    match KeySecond(configKey)
    case None => None
    case Some(second) => Some(map[KeyHead(configKey) := e.source][second := e.dest])
  }

  /**
   * The loop over `add_entries` (lines 114-121) on the assets left after
   * removal: None when it raises.
   */
  function AddEntries(configKey: string, assets: Assets, entries: seq<AddEntry>): Option<Assets>
    decreases |entries|
  {
    if entries == [] then Some(assets)
    else
      var e := entries[0];
      if HasName(e) && e.normalized.value !in assets then
        match EntryMapping(configKey, e)
        case None => None
        case Some(m) => AddEntries(configKey, assets[e.normalized.value := m], entries[1..])
      else AddEntries(configKey, assets, entries[1..])
  }

  /** An entry that would be inserted. */
  predicate Inserts(e: AddEntry, assets: Assets) { HasName(e) && e.normalized.value !in assets }

  /** The loop raises exactly when the key has no '-' and some entry would be inserted. */
  lemma {:induction false} AddEntriesCrash(configKey: string, assets: Assets, entries: seq<AddEntry>)
    ensures AddEntries(configKey, assets, entries).None? <==>
              '-' !in configKey && exists i :: 0 <= i < |entries| && Inserts(entries[i], assets)
    decreases |entries|
  {
    if entries != [] {
      var e := entries[0];
      if Inserts(e, assets) {
        if '-' in configKey {
          var m := EntryMapping(configKey, e).value;
          var bigger := assets[e.normalized.value := m];
          AddEntriesCrash(configKey, bigger, entries[1..]);
        }
      } else {
        AddEntriesCrash(configKey, assets, entries[1..]);
        if exists i :: 0 <= i < |entries| && Inserts(entries[i], assets) {
          var i :| 0 <= i < |entries| && Inserts(entries[i], assets);
          assert entries[1..][i - 1] == entries[i];
        }
      }
    }
  }

  /** Additions never overwrite an asset, and every named entry ends up present. */
  lemma {:induction false} AddEntriesKeeps(configKey: string, assets: Assets, entries: seq<AddEntry>)
    requires AddEntries(configKey, assets, entries).Some?
    ensures var r := AddEntries(configKey, assets, entries).value;
              && (forall a :: a in assets ==> a in r && r[a] == assets[a])
              && (forall i :: 0 <= i < |entries| && HasName(entries[i]) ==> entries[i].normalized.value in r)
    decreases |entries|
  {
    if entries != [] {
      var e := entries[0];
      var next := if Inserts(e, assets) then assets[e.normalized.value := EntryMapping(configKey, e).value] else assets;
      AddEntriesKeeps(configKey, next, entries[1..]);
      var r := AddEntries(configKey, assets, entries).value;
      forall i | 0 <= i < |entries| && HasName(entries[i]) ensures entries[i].normalized.value in r {
        if i > 0 { assert entries[1..][i - 1] == entries[i]; }
      }
    }
  }

  /** `entries[i]` is the first entry that names `a`, and it is truthy. */
  predicate FirstNaming(entries: seq<AddEntry>, i: int, a: string) {
    && 0 <= i < |entries| && HasName(entries[i]) && entries[i].normalized == Some(a)
    && forall j :: 0 <= j < i ==> entries[j].normalized != Some(a)
  }

  lemma FirstNamingShift(entries: seq<AddEntry>, i: int, a: string)
    requires |entries| > 0 && FirstNaming(entries[1..], i, a) && entries[0].normalized != Some(a)
    ensures FirstNaming(entries, i + 1, a)
  {
    assert entries[i + 1] == entries[1..][i];
    forall j | 0 <= j < i + 1 ensures entries[j].normalized != Some(a) {
      if j > 0 { assert entries[j] == entries[1..][j - 1]; }
    }
  }

  /** Each added asset comes from the first entry naming it, mapped by the key's two halves. */
  lemma {:induction false} AddEntriesAdded(configKey: string, assets: Assets, entries: seq<AddEntry>, a: string)
    requires AddEntries(configKey, assets, entries).Some?
    requires a in AddEntries(configKey, assets, entries).value && a !in assets
    ensures exists i :: FirstNaming(entries, i, a)
              && EntryMapping(configKey, entries[i]) == Some(AddEntries(configKey, assets, entries).value[a])
    decreases |entries|
  {
    var r := AddEntries(configKey, assets, entries).value;
    var e := entries[0];
    if Inserts(e, assets) && e.normalized.value == a {
      var m := EntryMapping(configKey, e).value;
      AddEntriesKeeps(configKey, assets[a := m], entries[1..]);
      assert r[a] == m;
      assert FirstNaming(entries, 0, a);
    } else {
      var next := if Inserts(e, assets) then assets[e.normalized.value := EntryMapping(configKey, e).value] else assets;
      assert AddEntries(configKey, next, entries[1..]) == AddEntries(configKey, assets, entries);
      AddEntriesAdded(configKey, next, entries[1..], a);
      var i :| FirstNaming(entries[1..], i, a) && EntryMapping(configKey, entries[1..][i]) == Some(r[a]);
      FirstNamingShift(entries, i, a);
      assert entries[i + 1] == entries[1..][i];
    }
  }

  /** A JSON file as loaded: a file that fails to load counts as `{}`. */
  function Loaded<T>(file: Option<map<string, T>>): map<string, T> {
    if file.Some? then file.value else map[]
  }

  /** Removal listed for `configKey` matches `asset`. */
  predicate Removed(configKey: string, asset: string, removals: map<string, seq<string>>) {
    configKey in removals && ShouldRemove(asset, removals[configKey])
  }

  /**
   * What one configuration key of `common_assets` becomes: its removals
   * first, then its additions; None when the additions raise.
   */
  function KeyResult(configKey: string, assets: Assets, removals: map<string, seq<string>>,
                     additions: map<string, seq<AddEntry>>): (r: Option<Assets>)
    ensures configKey !in removals && configKey !in additions ==> r == Some(assets)
  {
    var kept := if configKey in removals then RemoveMatching(assets, removals[configKey]) else assets;
    if configKey in additions then AddEntries(configKey, kept, additions[configKey]) else Some(kept)
  }

  /**
   * The assets a key ends with: every asset no removal matches, unchanged,
   * and otherwise only assets that the first add entry naming them maps.
   */
  lemma KeyResultMeaning(configKey: string, assets: Assets, removals: map<string, seq<string>>,
                         additions: map<string, seq<AddEntry>>)
    requires KeyResult(configKey, assets, removals, additions).Some?
    ensures var r := KeyResult(configKey, assets, removals, additions).value;
              && (forall a :: a in assets && !Removed(configKey, a, removals) ==> a in r && r[a] == assets[a])
              && (forall a :: a in r ==>
                    (a in assets && !Removed(configKey, a, removals) && r[a] == assets[a])
                    || (configKey in additions &&
                        exists i :: 0 <= i < |additions[configKey]|
                          && additions[configKey][i].normalized == Some(a) && HasName(additions[configKey][i])
                          && EntryMapping(configKey, additions[configKey][i]) == Some(r[a])))
  {
    var kept := if configKey in removals then RemoveMatching(assets, removals[configKey]) else assets;
    var r := KeyResult(configKey, assets, removals, additions).value;
    if configKey in additions {
      var entries := additions[configKey];
      AddEntriesKeeps(configKey, kept, entries);
      forall a | a in r && a !in kept
        ensures exists i :: 0 <= i < |entries| && entries[i].normalized == Some(a) && HasName(entries[i])
                  && EntryMapping(configKey, entries[i]) == Some(r[a])
      {
        AddEntriesAdded(configKey, kept, entries, a);
        var i :| FirstNaming(entries, i, a) && EntryMapping(configKey, entries[i]) == Some(r[a]);
      }
    }
  }

  /** A key `name1-name2` of dash-free names never raises, and maps added entries to `name1` and `name2`. */
  lemma PairKeyAdditions(name1: string, name2: string, assets: Assets, removals: map<string, seq<string>>,
                         additions: map<string, seq<AddEntry>>, e: AddEntry)
    requires DashFree(name1) && DashFree(name2)
    ensures KeyResult(PairKey(name1, name2), assets, removals, additions).Some?
    ensures EntryMapping(PairKey(name1, name2), e) == Some(map[name1 := e.source][name2 := e.dest])
  {
    var key := PairKey(name1, name2);
    SplitPairKey(name1, name2);
    if key in additions {
      var kept := if key in removals then RemoveMatching(assets, removals[key]) else assets;
      AddEntriesCrash(key, kept, additions[key]);
    }
  }

  /** The inner loop of `modify_common_assets` over the add entries of one key. */
  method ApplyAdditions(configKey: string, assets: Assets, entries: seq<AddEntry>) returns (r: Option<Assets>)
    ensures r == AddEntries(configKey, assets, entries)
  {
    var current := assets;
    var j := 0;
    while j < |entries|
      invariant 0 <= j <= |entries|
      invariant AddEntries(configKey, current, entries[j..]) == AddEntries(configKey, assets, entries)
    {
      var e := entries[j];
      assert entries[j..][1..] == entries[j + 1..];
      if e.normalized.Some? && e.normalized.value != "" && e.normalized.value !in current {
        var second := KeySecond(configKey);
        if second.None? {
          return None;
        }
        current := current[e.normalized.value := map[KeyHead(configKey) := e.source][second.value := e.dest]];
      }
      j := j + 1;
    }
    r := Some(current);
  }

  /** The body of the loop of `modify_common_assets` for one configuration key. */
  method ModifyKey(configKey: string, assets: Assets, removals: map<string, seq<string>>,
                   additions: map<string, seq<AddEntry>>) returns (r: Option<Assets>)
    ensures r == KeyResult(configKey, assets, removals, additions)
  {
    var kept := assets;
    if configKey in removals {
      kept := RemoveMatching(kept, removals[configKey]);
    }
    if configKey in additions {
      r := ApplyAdditions(configKey, kept, additions[configKey]);
    } else {
      r := Some(kept);
    }
  }

  /**
   * The keys not in `pending` hold their `KeyResult`, the others are as
   * loaded. The conjunction is bound to one name so that the verifier
   * checks each use as a single fact.
   */
  ghost predicate Modified(current: map<string, Assets>, commonAssets: map<string, Assets>, pending: set<string>,
                           removals: map<string, seq<string>>, additions: map<string, seq<AddEntry>>)
  {
    var modified := && pending <= commonAssets.Keys
                    && current.Keys == commonAssets.Keys
                    && (forall k :: k in pending ==> current[k] == commonAssets[k])
                    && (forall k :: k in commonAssets && k !in pending ==>
                          KeyResult(k, commonAssets[k], removals, additions) == Some(current[k]));
    modified
  }

  lemma ModifiedPending(current: map<string, Assets>, commonAssets: map<string, Assets>, pending: set<string>,
                        removals: map<string, seq<string>>, additions: map<string, seq<AddEntry>>, configKey: string)
    requires Modified(current, commonAssets, pending, removals, additions) && configKey in pending
    ensures configKey in commonAssets && configKey in current && current[configKey] == commonAssets[configKey]
  {
  }

  lemma ModifiedStep(current: map<string, Assets>, commonAssets: map<string, Assets>, pending: set<string>,
                     removals: map<string, seq<string>>, additions: map<string, seq<AddEntry>>,
                     configKey: string, assets: Assets)
    requires Modified(current, commonAssets, pending, removals, additions) && configKey in pending
    requires KeyResult(configKey, commonAssets[configKey], removals, additions) == Some(assets)
    ensures Modified(current[configKey := assets], commonAssets, pending - {configKey}, removals, additions)
  {
  }

  lemma ModifiedAll(current: map<string, Assets>, commonAssets: map<string, Assets>,
                    removals: map<string, seq<string>>, additions: map<string, seq<AddEntry>>)
    requires Modified(current, commonAssets, {}, removals, additions)
    ensures current.Keys == commonAssets.Keys
    ensures forall k :: k in commonAssets ==> KeyResult(k, commonAssets[k], removals, additions) == Some(current[k])
  {
  }

  /**
   * `modify_common_assets`: every configuration key becomes its
   * `KeyResult`; None when an addition raises IndexError on a key without
   * '-'. Keys are never added: the loop visits only the existing keys.
   */
  method ModifyCommonAssets(commonAssets: map<string, Assets>, removeFile: Option<map<string, seq<string>>>,
                            addFile: Option<map<string, seq<AddEntry>>>)
    returns (r: Option<map<string, Assets>>)
    ensures r.None? <==>
              exists k :: k in commonAssets && KeyResult(k, commonAssets[k], Loaded(removeFile), Loaded(addFile)).None?
    ensures r.Some? ==> r.value.Keys == commonAssets.Keys
    ensures r.Some? ==> forall k :: k in commonAssets ==>
              KeyResult(k, commonAssets[k], Loaded(removeFile), Loaded(addFile)) == Some(r.value[k])
  {
    var removals := Loaded(removeFile);
    var additions := Loaded(addFile);
    var current := commonAssets;
    var pending := commonAssets.Keys;
    while pending != {}
      invariant Modified(current, commonAssets, pending, removals, additions)
      decreases |pending|
    {
      var configKey :| configKey in pending;
      ModifiedPending(current, commonAssets, pending, removals, additions, configKey);
      var assets := ModifyKey(configKey, current[configKey], removals, additions);
      if assets.None? {
        return None;
      }
      ModifiedStep(current, commonAssets, pending, removals, additions, configKey, assets.value);
      current := current[configKey := assets.value];
      pending := pending - {configKey};
    }
    ModifiedAll(current, commonAssets, removals, additions);
    r := Some(current);
  }
}
