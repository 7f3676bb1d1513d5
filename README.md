# Arbitrage scripts — a verified Dafny model

This project models the decision logic of a small set of Python scripts for
crypto exchange arbitrage:

- **Fee-adjusted opportunity detection.** `utils.py` and
  `ArbitrageStrategy.check_opportunities` in `arbitrage.py` adjust prices for
  fees and test every ordered pair of exchanges. `main.py` and
  `arbitrage_strategy.py` are the fee-free variants that buy on the cheaper
  exchange.
- **Asset-list reconciliation.** Each of these scripts works out which symbols
  two or more exchanges share:
  - `common_assets.py`
  - `common_pairs.py`
  - `create_common_pairs.py`
  - `create_list_coingeco.py`
  - `historic_test.py`
  - `token_check.py`

  They use allowed quotes, liquidity thresholds, removal and addition
  overrides, exception lists, CoinGecko ids and symbol normalization.
- **Exchange adapters** (`exchanges/kucoin.py`, `bitstamp.py`, `bitget.py`):
  - listing filters;
  - Kucoin's symbol formatting;
  - Bitstamp's case mapping;
  - the fallbacks when a reply is missing a field or a request fails.
- **`OrderManager`**, the append-only log of simulated orders.

Each core source file becomes one module:

| module | source file |
|---|---|
| `Fees` | `utils.py` |
| `Arbitrage` | `arbitrage.py` |
| `MainScan` | `main.py` |
| `StrategyRunner` | `arbitrage_strategy.py` |
| `CommonAssets` | `common_assets.py` |
| `CommonPairs` | `common_pairs.py` |
| `CreateCommonPairs` | `create_common_pairs.py` |
| `Coingecko` | `create_list_coingeco.py` |
| `Historic` | `historic_test.py` |
| `TokenCheck` | `token_check.py` |
| `Kucoin`, `Bitstamp`, `Bitget` | the three adapters |
| `OrderManagement` | `order_manager.py` |

Four modules are shared vocabulary:

- `Collections`: `Option`, duplicate-free lists, Python's `list(set)` and slicing.
- `Text`: ASCII case mapping, replace, strip and split.
- `Pairing`: the `name1-name2` keys. It also proves that the scripts visit each
  pair `i < j` exactly once.
- `Responses`: the decoded replies the adapters read.

Code that updates state step by step is kept in that form:

- A loop becomes a `method` with a `while` loop. It is proved against a
  specification function, or against a predicate on its result.
- `ArbitrageStrategy` and `OrderManager` are classes.

Pure expressions become functions, with lemmas about them.

How the model treats inputs and errors:

- **Given values.** Whatever the scripts fetch or read is a parameter: HTTP
  replies, `load_markets`, order books, JSON files and user input.
- **Caught exceptions.** They become the value the handler returns, such as
  `[]`, `{}`, `None` or `0.0`.
- **Uncaught exceptions.** An outcome flag or `None` result. This covers a
  `TypeError` on a `None` price, a `ZeroDivisionError` and the `IndexError` of
  `split("-")[1]`.

## Model

| member | source | states |
|---|---|---|
| Fees.EffectiveBuy | utils.py:3-10 | with price and fee ≥ 0 the effective buy price is ≥ the price; a zero fee leaves it unchanged; a positive price stays positive (the identical redefinition at lines 20-21 changes nothing) |
| Fees.EffectiveSell | utils.py:12-24 | with price and fee ≥ 0 the effective sell price is ≤ the price; a zero fee leaves it unchanged; for 0 ≤ fee ≤ 100 it is ≥ 0; the adjustment is symmetric: buy − p == p − sell |
| Fees.ProfitPercent | arbitrage.py:40 | for a positive effective buy price: profit is 0 iff the prices are equal, and > 0 iff sell > buy |
| Fees.AtMostOneDirection | arbitrage.py:32-41 | with positive prices, non-negative fees and a positive threshold, the two directions between two exchanges cannot both reach the threshold |
| Arbitrage.TickerTableMembers | arbitrage.py:22-29 | the price table holds exactly the exchanges whose fetch gave a truthy, non-exception result, with their `last` price and fee; failures are skipped |
| Arbitrage.TickerTableDistinct | arbitrage.py:22-29 | distinct exchange names give distinct table entries |
| Arbitrage.ReportFor | arbitrage.py:33-40 | a report carries the buy and sell names and prices, the effective prices and the profit `(sell·(1−fs/100) − buy·(1+fb/100)) / (buy·(1+fb/100)) · 100` |
| Arbitrage.EvaluateWellFormed | arbitrage.py:31-45 | with at least two priced entries and non-zero effective buy prices, nothing raises; each ordered pair of distinct exchanges is reported at most once, and iff its profit reaches the threshold (inclusive) |
| Arbitrage.ReportsClearThreshold | arbitrage.py:34-41 | a report never pairs an exchange with itself and its profit is ≥ the threshold |
| Arbitrage.EvaluateCrashes | arbitrage.py:31-40 | the evaluation raises (a None price, or a zero effective buy price) exactly when the table has ≥ 2 entries and is not well formed |
| Arbitrage.AtMostOneDirectionReported | arbitrage.py:32-41 | with positive prices, non-negative fees and a positive threshold, no two reports are the two directions of one exchange pair |
| Arbitrage.ArbitrageStrategy.constructor | arbitrage.py:8-9 | `exchanges` is the given table, held in a `const` field (read, never changed) |
| Arbitrage.ArbitrageStrategy.CheckOpportunities | arbitrage.py:11-48 | the loops compute the price table of the fetch results and the evaluation of that table; fewer than two tickers evaluate nothing |
| Arbitrage.EvaluateTable | arbitrage.py:32-41 | the outer loop over buy entries equals the step-by-step evaluation of the whole table, stopping at the first raise |
| Arbitrage.EvaluateRow | arbitrage.py:35-41 | the inner loop over sell entries equals the evaluation of one buy entry's row, stopping where a None sell price or a zero effective buy price raises |
| MainScan.GetCommonPairs | main.py:28-34 | exactly the pairs present in both listings, each once |
| MainScan.PairStep | main.py:52-81 | a None price skips; equal prices record nothing; two different present prices give a record exactly when the cheaper one is non-zero, and a ZeroDivisionError exactly when it is 0; the record's buy side is the strictly cheaper exchange, its two prices are the two exchanges' prices, and the difference is relative to the buy price |
| MainScan.FindOpportunities | main.py:51-81 | the loop equals the step-by-step scan, stopping at a ZeroDivisionError |
| MainScan.ScanMembers | main.py:51-81 | the scan crashes iff some step divides by zero; every record comes from its pair's step and, without a crash, every such step's record is present |
| MainScan.ScanOnePerPair | main.py:51-81 | duplicate-free pairs give at most one record per pair |
| MainScan.PositivePricesScan | main.py:56-72 | with positive (or missing) prices nothing divides by zero and every record has price_buy < price_sell and a positive difference |
| StrategyRunner.PairStep | arbitrage_strategy.py:35-61 | a record iff both prices are neither None nor 0 and `calculate_difference(p1, p2) >= threshold`; buy is exchange 1 at p1 and sell exchange 2 at p2 iff p1 < p2, otherwise buy is exchange 2 at p2 and sell exchange 1 at p1 (ties go to exchange 2); `difference_percent == diff`; `pair` is the normalized symbol |
| StrategyRunner.RunArbitrage | arbitrage_strategy.py:7-61 | returns early (None) iff there is a pair and the mapping does not have exactly two exchanges; otherwise the records of all pair steps in pair order |
| StrategyRunner.RunMembers | arbitrage_strategy.py:17-61 | the records are exactly the pair steps' records; distinct normalized symbols give at most one record per pair |
| StrategyRunner.RunOpportunitiesSound | arbitrage_strategy.py:39-61 | every record reaches the threshold, buys at the lower price and trades between the two named exchanges |
| CommonAssets.SplitSymbol | common_assets.py:16 | no '/' gives no split |
| CommonAssets.SplitSymbolParts | common_assets.py:16 | a split yields base and quote without '/' that rebuild the symbol |
| CommonAssets.SplitSymbolOf | common_assets.py:16 | `base/quote` always splits back into `(base, quote)` |
| CommonAssets.LoadMarkets | common_assets.py:9-22 | exactly the symbols with one '/' and an allowed quote, each mapped to itself; `{}` on a failed load or when any symbol has two or more '/' |
| CommonAssets.TotalVolume | common_assets.py:24-35 | a failed fetch, a missing side or zero levels give 0 |
| CommonAssets.SumVolumesAppend | common_assets.py:31 | the volume sum is additive over concatenation |
| CommonAssets.TotalVolumeMonotone | common_assets.py:31 | with non-negative volumes the total is ≥ 0 and checking more levels never lowers it |
| CommonAssets.FilterLiquid | common_assets.py:52-66 | keeps exactly the symbols whose exchange-1 asks and exchange-2 bids volumes both reach `MIN_LIQUIDITY[quote]` (default 0) |
| CommonAssets.BothListings | common_assets.py:70 | the mapping has exactly the keys name1 and name2, both mapped to the symbol |
| CommonAssets.MapToBothListings | common_assets.py:68-70 | one entry per symbol, each `{name1: symbol, name2: symbol}` |
| CommonAssets.GetCommonAssetsForPair | common_assets.py:37-71 | the keys are exactly the symbols both exchanges list with an allowed quote (and are liquid when the filter is on), each mapped to `{name1: s, name2: s}` |
| CommonAssets.ShouldRemove | common_assets.py:81-85 | true iff the asset equals some listed r or starts with `r + "/"` |
| CommonAssets.SlashPrefix | common_assets.py:83 | `other/quote` starts with `base/` only when base is other |
| CommonAssets.ShouldRemoveWholeBase | common_assets.py:83 | "ABC" removes "ABC/USDT" but not "ABCD/USDT": only whole base names match |
| CommonAssets.EntryMapping | common_assets.py:117-120 | the added mapping is built, and raises IndexError exactly when the key has no '-' |
| CommonAssets.AddEntriesCrash | common_assets.py:114-120 | the addition loop raises exactly when the key has no '-' and some entry would be inserted |
| CommonAssets.AddEntriesKeeps | common_assets.py:114-120 | additions never overwrite an asset, and every entry with a truthy `normalized` ends up present |
| CommonAssets.AddEntriesAdded | common_assets.py:114-120 | an added asset comes from the first entry naming it, mapped by the key's two halves to `source` and `dest` |
| CommonAssets.KeyResult | common_assets.py:102-121 | a key in neither file is unchanged |
| CommonAssets.KeyResultMeaning | common_assets.py:102-121 | removal runs first: unmatched assets are kept unchanged, and anything else present was added by an entry naming it |
| CommonAssets.ApplyAdditions | common_assets.py:114-120 | the addition loop of one key computes `AddEntries`, including the IndexError of a key without '-' |
| CommonAssets.ModifyKey | common_assets.py:103-120 | the loop body for one key computes its `KeyResult`: removals first, then additions |
| CommonAssets.PairKeyAdditions | common_assets.py:114-120 | a `name1-name2` key of dash-free names never raises, and an added entry maps name1 to `source` and name2 to `dest` |
| CommonAssets.ModifyCommonAssets | common_assets.py:87-122 | same key set (lines 112-113 are unreachable); each key becomes its removal-then-addition result; None iff some key's addition raises; a file that fails to load counts as `{}` |
| CommonPairs.ExceptionsFor | common_pairs.py:32-37 | a missing exceptions file or key removes nothing |
| CommonPairs.SharedList | common_pairs.py:55-59 | the symbols both exchanges list, minus the exceptions, without duplicates |
| CommonPairs.CreateCommonPairs | common_pairs.py:39-60 | exactly one entry per exchange pair i < j, keyed `name_i-name_j`, holding the shared symbols minus that key's exceptions, without duplicates |
| Pairing.SplitPairKey | common_assets.py:118-119 | splitting `name1-name2` at '-' gives back the two dash-free names |
| Pairing.PairKeyInjective | common_pairs.py:56 | keys of dash-free names never collide |
| Pairing.PairKeysDistinct | common_pairs.py:54-56 | distinct exchange pairs get distinct keys, so no entry overwrites another |
| CreateCommonPairs.ParsePair | create_common_pairs.py:29-45 | a dict gives its `symbol`/`base`/`quote` (None when missing); anything else gives `symbol = raw` and no base or quote |
| CreateCommonPairs.Mapping | create_common_pairs.py:70-71 | an empty listing gives an empty mapping |
| CreateCommonPairs.MappingKeys | create_common_pairs.py:70-71 | every entry's normalized key is present |
| CreateCommonPairs.MappingLastWins | create_common_pairs.py:70-71 | each key holds the entry that is last with that key |
| CreateCommonPairs.MatchPairs | create_common_pairs.py:73-83 | each tuple's key is in both mappings, appears once and carries both original symbols; all compatible common keys are matched; both-sided truthy bases with a differing base or quote are dropped |
| CreateCommonPairs.Cached | create_common_pairs.py:67-68 | an exchange without a cached list contributes an empty listing |
| CreateCommonPairs.CreateAllCommonPairs | create_common_pairs.py:64-85 | exactly one entry per exchange pair i < j, keyed `name_i-name_j`, holding that pair's matches |
| Coingecko.CoinMappingFirstWins | create_list_coingeco.py:11-15 | every upper-cased symbol is mapped, to the id of the first token with that symbol |
| Coingecko.LoadCoingeckoTokens | create_list_coingeco.py:7-16 | the loop builds the first-wins symbol map |
| Coingecko.CoinId | create_list_coingeco.py:46-47 | a symbol unknown to the map is its own id |
| Coingecko.CoinIds | create_list_coingeco.py:43-47 | exactly the ids of the upper-cased text before the first '/' of each market |
| Coingecko.SharedIdAcrossTickers | create_list_coingeco.py:46-49 | different tickers with one CoinGecko id count as common |
| Coingecko.CommonIds | create_list_coingeco.py:49-52 | the ids in both exchanges' id sets, each once |
| Coingecko.GenerateCommonAssets | create_list_coingeco.py:32-52 | exactly one entry per exchange pair i < j, keyed `ex_i-ex_j`, holding the common coin ids |
| Historic.NormalizeSymbol | historic_test.py:24-25 | each character is the upper-cased input character, with '-' replaced by '/'; so the result has the input's length, no '-' and no lower-case ASCII letter |
| Historic.NormalizeIdempotent | historic_test.py:24-25 | normalizing twice equals normalizing once |
| Historic.NormalizedSet | historic_test.py:43 | exactly the normalized forms of the exchange's symbols |
| Historic.GetCommonAssets | historic_test.py:39-49 | the intersection of all exchanges' normalized sets; empty when there is no exchange |
| Historic.CommonAssetsBounded | historic_test.py:45-49 | the common assets are a subset of each exchange's set, and empty when one exchange lists nothing |
| TokenCheck.SearchToken | token_check.py:22-25 | exactly the coins whose symbol equals the lower-cased query; a symbol with an upper-case letter never matches (only the query is lower-cased) |
| TokenCheck.SearchTokenAppend | token_check.py:24 | the search distributes over concatenation, so it preserves order |
| TokenCheck.ParseInt | token_check.py:47 | a parsed value is non-negative unless the text starts with '-' |
| TokenCheck.ParseIntRejects | token_check.py:46-48 | a character other than a digit, '_' or a leading sign makes the choice invalid |
| TokenCheck.ParseShowRoundTrip | token_check.py:47 | `int(str(k)) == k` for every integer |
| TokenCheck.PyIndex | token_check.py:47-48 | Python indexing: valid iff −n ≤ i < n, a negative index counting from the end |
| TokenCheck.ChooseToken | token_check.py:36-50 | no match ends the search; a selected coin is a match; a non-numeric choice is invalid |
| TokenCheck.ChoiceSelection | token_check.py:45-50 | k in 1..n selects match k; 0 selects the last; −n < k ≤ 0 counts from the end; k > n or k ≤ −n is invalid |
| Responses.ReadPrice | exchanges/kucoin.py:38-44 | a missing field reads 0.0, an unparsable one gives None, a number is itself |
| Kucoin.TradingSymbols | exchanges/kucoin.py:16 | every listed pair has no '-' and there are at most as many as items |
| Kucoin.TradingSymbolsMembers | exchanges/kucoin.py:16 | fails exactly when a trading item has no symbol; otherwise exactly the dash-stripped symbols of the items with a truthy `trading` |
| Kucoin.TradingSymbolsAppend | exchanges/kucoin.py:16 | the listing preserves order (distributes over concatenation) |
| Kucoin.GetTradingPairs | exchanges/kucoin.py:8-21 | a failed request or a missing `data` gives `[]`; no listed pair has a '-' |
| Kucoin.FormatPair | exchanges/kucoin.py:26-31 | the formatted symbol always has a '-'; a pair with a '-' is unchanged; otherwise one character longer |
| Kucoin.FormatPairRoundTrip | exchanges/kucoin.py:16-29 | deleting '-' from the formatted dash-free pair gives the pair back |
| Kucoin.ListedSymbolRoundTrip | exchanges/kucoin.py:16-31 | a listed `BAS-QUOTE` with a three-character base is requested under its own name |
| Kucoin.LongBaseMisformatted | exchanges/kucoin.py:26-31 | a listed pair whose base is longer than three characters is requested with the dash after the third character, never as listed ("DOGE-USDT" becomes "DOG-EUSDT") |
| Kucoin.GetPrice | exchanges/kucoin.py:34-44 | failure gives None; a missing `data` or `price` gives 0.0 |
| Bitstamp.GetTradingPairs | exchanges/bitstamp.py:8-24 | the loop equals the upper-cased truthy `url_symbol`s in order; a failed request gives `[]` |
| Bitstamp.ListedPairsMembers | exchanges/bitstamp.py:16-20 | exactly the upper-cased truthy url symbols, none with a lower-case letter; products without one are skipped |
| Bitstamp.ListedPairsAppend | exchanges/bitstamp.py:16-20 | the listing preserves order |
| Bitstamp.RequestSymbol | exchanges/bitstamp.py:28 | the request symbol has no upper-case letter and the pair's length |
| Bitstamp.RequestListedSymbol | exchanges/bitstamp.py:20-28 | a listed pair is requested under its original lower-case `url_symbol` |
| Bitstamp.GetPrice | exchanges/bitstamp.py:26-38 | failure gives None; a missing `last` gives 0.0 |
| Bitget.Symbols | exchanges/bitget.py:15 | exactly the present, non-empty symbols, unchanged |
| Bitget.SymbolsAppend | exchanges/bitget.py:15 | the filter preserves order |
| Bitget.GetTradingPairs | exchanges/bitget.py:8-19 | a failed request or a missing `data` gives `[]` |
| Bitget.GetPrice | exchanges/bitget.py:21-33 | failure gives None; a missing `data` or `last` gives 0.0 |
| OrderManagement.RecordedPrice | order_manager.py:16 | `'market'` iff the price is None or 0, otherwise the price itself |
| OrderManagement.OrderManager.constructor | order_manager.py:6-7 | a new manager has no orders and no logged calls |
| OrderManagement.OrderManager.LogOrder | order_manager.py:9-19 | appends exactly one record (the arguments verbatim, price or Market) after the unchanged earlier ones; one more logged call |
| OrderManagement.OrderManager.GetOrders | order_manager.py:21-22 | the current list, whose length is the number of `log_order` calls |
| Text.LowerUpper | exchanges/bitstamp.py:20-28 | lower-casing undoes upper-casing on text without upper-case letters |

## Left out

- **Network, JSON decoding, asyncio, threads, logging, printing and file I/O.** Their results are parameters:
  - `asyncio.gather`, `run_in_executor` and `asyncio.sleep`;
  - `save_common_assets` and `json.dump`;
  - `load_assets` and `fetch_historical_data`;
  - `input()` and the ticker listing of `token_check.py`.
- The infinite `while True` loop of `ArbitrageStrategy.run`: it only repeats `check_opportunities`.
- Floating point: prices, fees and volumes are exact reals. Rounding in the profit formulas is not modelled, and neither is `float()` text parsing: a price field is either a number or something `float()` rejects.
- Text.Upper, Text.Lower: ASCII letters only. Python's Unicode case mapping, which can change lengths, is not modelled. So `NormalizeSymbol` keeping the length holds for this ASCII model.
- TokenCheck.ParseInt: Unicode digits and the whitespace `int()` itself strips are not modelled. The typed text is already `strip()`ped.
- Set iteration order:
  - `list(set)`, the `for ... in set` loops and the `:|` choice leave the order open, as Python does.
  - Only contents and the absence of duplicates are stated.
  - The inner loops of the pairwise scripts are row methods.
- `calculate_difference` and the two-argument `normalize_symbol` are parameters. They are imported from `utils`, but `utils.py` defines neither. test/test_exchanges.py:43 imports `calculate_difference` from `main`, and main.py does not define it either.
- StrategyRunner.RunArbitrage: `threshold` is a required parameter, not the default `1.0` of arbitrage_strategy.py:7. Nothing in the repository calls `run_arbitrage`, so no behaviour depends on the default.
- Files with nothing to verify:
  - `logger_config.py` and `config.py`: routing and constants. The threshold (`ARBITRAGE_THRESHOLD`, config.py:15) and `ALLOWED_QUOTES` are parameters.
  - `exchanges/binance.py`: a ccxt wrapper.
  - `exchanges/exchange.py` and `__init__.py`: interfaces.
  - `test/test_exchanges.py`: tests a `get_trading_pairs` that the Binance adapter lacks.
- The `main` of `common_assets.py`, which chains `get_common_assets_for_pair` over the exchange pairs and then `modify_common_assets`. The two parts are modelled separately.
- CommonAssets.LiquiditySettings: `FILTER_LOW_LIQUIDITY`, `MIN_LIQUIDITY` and `LIQUIDITY_LEVELS_TO_CHECK` are not defined in config.py, so the script runs with the defaults. The model takes any settings.
- CommonAssets.TotalVolume: order-book levels that are not `[price, volume]` pairs, which would raise inside the `try`, are not modelled. Neither are non-numeric volumes.
- CommonAssets.ModifyCommonAssets: modelled on map values, returning the new map. The in-place update of the caller's dict (aliasing) is not modelled. Its only caller rebinds to the returned value.
- OrderManagement.OrderManager.GetOrders: returns the list by value. The Python list it returns is the manager's own, so later appends show through it; that aliasing is not modelled.
- JSON type errors are not modelled: a field of an unexpected type, a non-dict item or a non-list `data`. Fields are typed as the scripts expect them, with missing keys as `None`.
- The `KeyError` on a CoinGecko token without `symbol` or `id`, and on a coin without `symbol` in `search_token`, are not modelled: those records always carry the fields.
- CreateCommonPairs.ParsePair: dict field values are strings.
- Arbitrage.ArbitrageStrategy.constructor: requires distinct exchange names, as keys of the `exchanges` dict always are.
- The pairwise scripts take exchange names that are distinct and contain no '-', as their dict keys do.
