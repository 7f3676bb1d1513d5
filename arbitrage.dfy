/**
 * arbitrage.py: `ArbitrageStrategy.check_opportunities`. The tickers fetched
 * from every exchange are collected into a price table (failed fetches are
 * dropped), then every ordered pair of distinct exchanges of the table is
 * evaluated for a fee-adjusted profit, and the pairs whose profit reaches the
 * threshold are reported (logged). The fetches themselves are the `results`
 * parameter, one per exchange, in the order of `self.exchanges`.
 */
module Arbitrage {
  import opened Collections
  import opened Fees

  /** One entry of `self.exchanges`: the exchange's name and its `fee_rate`. */
  datatype Venue = Venue(name: string, feeRate: real)

  /** What `asyncio.gather(..., return_exceptions=True)` delivered for one exchange. */
  datatype FetchResult =
    | Raised                      // an exception object
    | Falsy                       // None or an empty ticker
    | Ticker(last: Option<real>)  // a ticker; `last` is None when the key is missing

  /**
   * One entry of the `tickers` dict: the exchange's name, its price
   * (`result.get('last')`) and its fee rate, which the evaluation loop looks
   * up in `self.exchanges` under the same name.
   */
  datatype Quote = Quote(name: string, feeRate: real, last: Option<real>)

  /** One logged opportunity. */
  datatype Report = Report(buy: string, sell: string, buyPrice: real, effectiveBuy: real,
                           sellPrice: real, effectiveSell: real, profit: real)

  /** The reports logged, and whether the evaluation stopped on an uncaught exception. */
  datatype Outcome = Outcome(reports: seq<Report>, crashed: bool)

  predicate DistinctNames(venues: seq<Venue>) {
    forall i, j :: 0 <= i < j < |venues| ==> venues[i].name != venues[j].name
  }

  predicate DistinctQuotes(t: seq<Quote>) {
    forall i, j :: 0 <= i < j < |t| ==> t[i].name != t[j].name
  }

  /** The `tickers` table after the collecting loop over the first `|results|` exchanges. */
  function TickerTable(venues: seq<Venue>, results: seq<FetchResult>): seq<Quote>
    requires |venues| == |results|
  {
    if venues == [] then []
    else
      var n := |venues| - 1;
      var rest := TickerTable(venues[..n], results[..n]);
      if results[n].Ticker? then rest + [Quote(venues[n].name, venues[n].feeRate, results[n].last)]
      else rest
  }

  /** Index of the venue a table entry came from. */
  ghost predicate FromVenue(venues: seq<Venue>, results: seq<FetchResult>, q: Quote, k: int)
    requires |venues| == |results|
  {
    0 <= k < |venues| && results[k].Ticker?
    && q == Quote(venues[k].name, venues[k].feeRate, results[k].last)
  }

  /**
   * The table holds exactly the exchanges whose fetch returned a ticker;
   * exceptions and falsy results are skipped, never fatal.
   */
  lemma {:induction false} TickerTableMembers(venues: seq<Venue>, results: seq<FetchResult>)
    requires |venues| == |results|
    ensures |TickerTable(venues, results)| <= |venues|
    ensures forall q :: q in TickerTable(venues, results) <==> exists k :: FromVenue(venues, results, q, k)
  {
    if venues != [] {
      var n := |venues| - 1;
      TickerTableMembers(venues[..n], results[..n]);
      var rest := TickerTable(venues[..n], results[..n]);
      forall q ensures q in TickerTable(venues, results) <==> exists k :: FromVenue(venues, results, q, k) {
        if q in rest {
          var k :| FromVenue(venues[..n], results[..n], q, k);
          assert FromVenue(venues, results, q, k);
        } else if results[n].Ticker? && q == Quote(venues[n].name, venues[n].feeRate, results[n].last) {
          assert FromVenue(venues, results, q, n);
        }
        if k :| FromVenue(venues, results, q, k) {
          if k < n {
            assert FromVenue(venues[..n], results[..n], q, k);
          }
        }
      }
    }
  }

  /** Table entries keep the order of `self.exchanges`, so distinct exchange names stay distinct. */
  lemma {:induction false} TickerTableDistinct(venues: seq<Venue>, results: seq<FetchResult>)
    requires |venues| == |results| && DistinctNames(venues)
    ensures DistinctQuotes(TickerTable(venues, results))
  {
    if venues != [] {
      var n := |venues| - 1;
      TickerTableDistinct(venues[..n], results[..n]);
      TickerTableMembers(venues[..n], results[..n]);
      var rest := TickerTable(venues[..n], results[..n]);
      if results[n].Ticker? {
        var q := Quote(venues[n].name, venues[n].feeRate, results[n].last);
        forall i | 0 <= i < |rest| ensures rest[i].name != q.name {
          assert rest[i] in rest;
          var k :| FromVenue(venues[..n], results[..n], rest[i], k);
        }
      }
    }
  }

  // ---------------------------------------------------------------------------
  // The evaluation loops, as the source runs them, one step at a time.

  /** `effective_buy` of a buy-side entry whose price is present. */
  function BuyPrice(q: Quote): real
    requires q.last.Some?
  {
    EffectiveBuy(q.last.value, q.feeRate)
  }

  /** The report the loop logs for buying at `buy` and selling at `sell`. */
  function ReportFor(buy: Quote, sell: Quote): (r: Report)
    requires buy.last.Some? && sell.last.Some? && BuyPrice(buy) != 0.0
    ensures r.buy == buy.name && r.sell == sell.name
    ensures r.buyPrice == buy.last.value && r.sellPrice == sell.last.value
    ensures r.effectiveBuy == BuyPrice(buy) && r.effectiveSell == EffectiveSell(sell.last.value, sell.feeRate)
    ensures r.profit == ProfitPercent(r.effectiveBuy, r.effectiveSell)
  {
    var eb := BuyPrice(buy);
    var es := EffectiveSell(sell.last.value, sell.feeRate);
    Report(buy.name, sell.name, buy.last.value, eb, sell.last.value, es, ProfitPercent(eb, es))
  }

  /**
   * One inner-loop step: a None sell price raises TypeError in the
   * multiplication, a zero effective buy price raises ZeroDivisionError in the
   * division, and otherwise the pair is reported iff its profit reaches the
   * threshold (inclusive).
   */
  function SellStep(acc: seq<Report>, buy: Quote, sell: Quote, threshold: real): Outcome
    requires buy.last.Some?
  {
    if sell.last.None? || BuyPrice(buy) == 0.0 then Outcome(acc, true)
    else if ReportFor(buy, sell).profit >= threshold then Outcome(acc + [ReportFor(buy, sell)], false)
    else Outcome(acc, false)
  }

  /** The inner loop for buy entry `t[i]` after the first `j` sell entries. */
  function RowPrefix(t: seq<Quote>, i: nat, j: nat, threshold: real): Outcome
    requires i < |t| && j <= |t| && t[i].last.Some?
  {
    if j == 0 then Outcome([], false)
    else
      var o := RowPrefix(t, i, j - 1, threshold);
      if o.crashed || t[j - 1].name == t[i].name then o
      else SellStep(o.reports, t[i], t[j - 1], threshold)
  }

  /** The outer loop after the first `i` buy entries; a None buy price raises TypeError. */
  function TablePrefix(t: seq<Quote>, i: nat, threshold: real): Outcome
    requires i <= |t|
  {
    if i == 0 then Outcome([], false)
    else
      var o := TablePrefix(t, i - 1, threshold);
      if o.crashed then o
      else if t[i - 1].last.None? then Outcome(o.reports, true)
      else
        var row := RowPrefix(t, i - 1, |t|, threshold);
        Outcome(o.reports + row.reports, row.crashed)
  }

  /** Everything the evaluation logs: nothing unless at least two exchanges produced a ticker. */
  function Evaluate(t: seq<Quote>, threshold: real): Outcome {
    if |t| >= 2 then TablePrefix(t, |t|, threshold) else Outcome([], false)
  }

  lemma {:induction false} RowCrashSticks(t: seq<Quote>, i: nat, j: nat, k: nat, threshold: real)
    requires i < |t| && j <= k <= |t| && t[i].last.Some?
    requires RowPrefix(t, i, j, threshold).crashed
    ensures RowPrefix(t, i, k, threshold) == RowPrefix(t, i, j, threshold)
    decreases k
  {
    if k > j { RowCrashSticks(t, i, j, k - 1, threshold); }
  }

  lemma {:induction false} TableCrashSticks(t: seq<Quote>, i: nat, k: nat, threshold: real)
    requires i <= k <= |t|
    requires TablePrefix(t, i, threshold).crashed
    ensures TablePrefix(t, k, threshold) == TablePrefix(t, i, threshold)
    decreases k
  {
    if k > i { TableCrashSticks(t, i, k - 1, threshold); }
  }

  // ---------------------------------------------------------------------------
  // What the loops compute, stated independently of the loop order.

  /** Every entry has a price and a non-zero effective buy price, so no step raises. */
  predicate WellFormed(t: seq<Quote>) {
    forall k :: 0 <= k < |t| ==> t[k].last.Some? && BuyPrice(t[k]) != 0.0
  }

  /** Buying at `t[b]` and selling at `t[s]` is a distinct-exchange pair that clears the threshold. */
  ghost predicate Hit(t: seq<Quote>, b: int, s: int, threshold: real) {
    && 0 <= b < |t| && 0 <= s < |t|
    && t[b].last.Some? && t[s].last.Some? && BuyPrice(t[b]) != 0.0
    && t[s].name != t[b].name
    && ReportFor(t[b], t[s]).profit >= threshold
  }

  lemma {:induction false} RowMembers(t: seq<Quote>, i: nat, j: nat, threshold: real)
    requires WellFormed(t) && DistinctQuotes(t) && i < |t| && j <= |t|
    ensures !RowPrefix(t, i, j, threshold).crashed
    ensures NoDuplicates(RowPrefix(t, i, j, threshold).reports)
    ensures forall r :: r in RowPrefix(t, i, j, threshold).reports <==>
              exists s :: s < j && Hit(t, i, s, threshold) && r == ReportFor(t[i], t[s])
  {
    if j > 0 {
      RowMembers(t, i, j - 1, threshold);
      var prev := RowPrefix(t, i, j - 1, threshold).reports;
      var cur := RowPrefix(t, i, j, threshold).reports;
      forall r ensures r in cur <==> exists s :: s < j && Hit(t, i, s, threshold) && r == ReportFor(t[i], t[s]) {
        if r in prev {
          var s :| s < j - 1 && Hit(t, i, s, threshold) && r == ReportFor(t[i], t[s]);
        }
        if s :| s < j && Hit(t, i, s, threshold) && r == ReportFor(t[i], t[s]) {
          if s == j - 1 {
            assert cur == prev + [r];
          }
        }
      }
      if Hit(t, i, j - 1, threshold) {
        var r := ReportFor(t[i], t[j - 1]);
        forall x | x in prev ensures x != r {
          var s :| s < j - 1 && Hit(t, i, s, threshold) && x == ReportFor(t[i], t[s]);
          assert x.sell == t[s].name != t[j - 1].name;
        }
        NoDuplicatesConcat(prev, [r]);
      }
    }
  }

  /** `r` is the report of some pair bought at one of the first `i` entries. */
  ghost predicate InTable(t: seq<Quote>, i: nat, threshold: real, r: Report) {
    exists b, s :: b < i && Hit(t, b, s, threshold) && r == ReportFor(t[b], t[s])
  }

  lemma TableStep(t: seq<Quote>, i: nat, threshold: real, prev: seq<Report>, row: seq<Report>)
    requires 0 < i <= |t|
    requires forall r :: r in prev <==> InTable(t, i - 1, threshold, r)
    requires forall r :: r in row <==> exists s :: s < |t| && Hit(t, i - 1, s, threshold) && r == ReportFor(t[i - 1], t[s])
    ensures forall r :: r in prev + row <==> InTable(t, i, threshold, r)
  {
    forall r ensures r in prev + row <==> InTable(t, i, threshold, r) {
      if r in row {
        var s :| s < |t| && Hit(t, i - 1, s, threshold) && r == ReportFor(t[i - 1], t[s]);
        assert InTable(t, i, threshold, r);
      }
      if r in prev {
        var b, s :| b < i - 1 && Hit(t, b, s, threshold) && r == ReportFor(t[b], t[s]);
        assert InTable(t, i, threshold, r);
      }
      if InTable(t, i, threshold, r) {
        var b, s :| b < i && Hit(t, b, s, threshold) && r == ReportFor(t[b], t[s]);
        if b < i - 1 {
          assert InTable(t, i - 1, threshold, r);
        }
      }
    }
  }

  /** `r` was bought at one of the first `i` entries. */
  ghost predicate BoughtBefore(t: seq<Quote>, i: nat, r: Report) {
    exists b :: 0 <= b < i && b < |t| && r.buy == t[b].name
  }

  /** Reports of row `i - 1` are new: earlier rows bought elsewhere. */
  lemma TableRowFresh(t: seq<Quote>, i: nat, prev: seq<Report>, row: seq<Report>)
    requires DistinctQuotes(t) && 0 < i <= |t|
    requires NoDuplicates(prev) && NoDuplicates(row)
    requires forall x :: x in prev ==> BoughtBefore(t, i - 1, x)
    requires forall y :: y in row ==> y.buy == t[i - 1].name
    ensures NoDuplicates(prev + row)
    ensures forall r :: r in prev + row ==> BoughtBefore(t, i, r)
  {
    forall x | x in prev ensures x !in row {
      var b :| 0 <= b < i - 1 && x.buy == t[b].name;
    }
    NoDuplicatesConcat(prev, row);
    forall r | r in prev + row ensures BoughtBefore(t, i, r) {
      if r in prev {
        var b :| 0 <= b < i - 1 && b < |t| && r.buy == t[b].name;
        assert b < i;
      } else {
        assert r.buy == t[i - 1].name;
      }
    }
  }

  lemma {:induction false} TableMembers(t: seq<Quote>, i: nat, threshold: real)
    requires WellFormed(t) && DistinctQuotes(t) && i <= |t|
    ensures !TablePrefix(t, i, threshold).crashed
    ensures NoDuplicates(TablePrefix(t, i, threshold).reports)
    ensures forall r :: r in TablePrefix(t, i, threshold).reports <==> InTable(t, i, threshold, r)
    ensures forall r :: r in TablePrefix(t, i, threshold).reports ==> BoughtBefore(t, i, r)
  {
    if i > 0 {
      TableMembers(t, i - 1, threshold);
      RowMembers(t, i - 1, |t|, threshold);
      var prev := TablePrefix(t, i - 1, threshold).reports;
      var row := RowPrefix(t, i - 1, |t|, threshold).reports;
      assert TablePrefix(t, i, threshold).reports == prev + row;
      TableStep(t, i, threshold, prev, row);
      forall y | y in row ensures y.buy == t[i - 1].name {
        var s :| s < |t| && Hit(t, i - 1, s, threshold) && y == ReportFor(t[i - 1], t[s]);
      }
      TableRowFresh(t, i, prev, row);
    }
  }

  /**
   * When every price is present and every effective buy price is non-zero,
   * nothing raises, each ordered pair of distinct exchanges is reported at
   * most once, and it is reported iff its profit reaches the threshold.
   */
  lemma EvaluateWellFormed(t: seq<Quote>, threshold: real)
    requires |t| >= 2 && WellFormed(t) && DistinctQuotes(t)
    ensures !Evaluate(t, threshold).crashed
    ensures NoDuplicates(Evaluate(t, threshold).reports)
    ensures forall r :: r in Evaluate(t, threshold).reports <==>
              exists b, s :: Hit(t, b, s, threshold) && r == ReportFor(t[b], t[s])
  {
    TableMembers(t, |t|, threshold);
    forall r ensures r in Evaluate(t, threshold).reports <==> InTable(t, |t|, threshold, r) {}
  }

  /** A reported pair never pairs an exchange with itself and always clears the threshold. */
  lemma ReportsClearThreshold(t: seq<Quote>, threshold: real, r: Report)
    requires |t| >= 2 && WellFormed(t) && DistinctQuotes(t)
    requires r in Evaluate(t, threshold).reports
    ensures r.buy != r.sell && r.profit >= threshold
    ensures r.effectiveBuy != 0.0 && r.profit == ProfitPercent(r.effectiveBuy, r.effectiveSell)
  {
    EvaluateWellFormed(t, threshold);
    var b, s :| Hit(t, b, s, threshold) && r == ReportFor(t[b], t[s]);
  }

  lemma {:induction false} RowNoCrash(t: seq<Quote>, i: nat, j: nat, threshold: real)
    requires i < |t| && j <= |t| && t[i].last.Some?
    requires !RowPrefix(t, i, j, threshold).crashed
    ensures forall k :: 0 <= k < j && t[k].name != t[i].name ==> t[k].last.Some? && BuyPrice(t[i]) != 0.0
  {
    if j > 0 {
      RowNoCrash(t, i, j - 1, threshold);
    }
  }

  lemma {:induction false} TableNoCrash(t: seq<Quote>, i: nat, threshold: real)
    requires |t| >= 2 && DistinctQuotes(t) && i <= |t|
    requires !TablePrefix(t, i, threshold).crashed
    ensures forall k :: 0 <= k < i ==> t[k].last.Some? && BuyPrice(t[k]) != 0.0
  {
    if i > 0 {
      TableNoCrash(t, i - 1, threshold);
      RowNoCrash(t, i - 1, |t|, threshold);
      var other := if i - 1 == 0 then 1 else 0;
      assert t[other].name != t[i - 1].name;
    }
  }

  /**
   * The evaluation raises (a None price, or a zero effective buy price
   * dividing the profit) exactly when the table has two or more entries and
   * is not well formed.
   */
  lemma EvaluateCrashes(t: seq<Quote>, threshold: real)
    requires DistinctQuotes(t)
    ensures Evaluate(t, threshold).crashed <==> |t| >= 2 && !WellFormed(t)
  {
    if |t| >= 2 {
      if WellFormed(t) {
        EvaluateWellFormed(t, threshold);
      } else if !Evaluate(t, threshold).crashed {
        TableNoCrash(t, |t|, threshold);
      }
    }
  }

  /**
   * With positive prices, non-negative fees and a positive threshold, at
   * most one of the two directions between two exchanges is reported.
   */
  lemma AtMostOneDirectionReported(t: seq<Quote>, threshold: real, r1: Report, r2: Report)
    requires |t| >= 2 && DistinctQuotes(t) && threshold > 0.0
    requires forall k :: 0 <= k < |t| ==> t[k].last.Some? && t[k].last.value > 0.0 && t[k].feeRate >= 0.0
    requires r1 in Evaluate(t, threshold).reports && r2 in Evaluate(t, threshold).reports
    ensures !(r1.buy == r2.sell && r1.sell == r2.buy)
  {
    EvaluateWellFormed(t, threshold);
    var b1, s1 :| Hit(t, b1, s1, threshold) && r1 == ReportFor(t[b1], t[s1]);
    var b2, s2 :| Hit(t, b2, s2, threshold) && r2 == ReportFor(t[b2], t[s2]);
  }

  /** The inner loop of `check_opportunities`: the sell entries for buy entry `t[i]`. */
  method EvaluateRow(t: seq<Quote>, i: nat, threshold: real) returns (row: Outcome)
    requires i < |t| && t[i].last.Some?
    ensures row == RowPrefix(t, i, |t|, threshold)
  {
    var buyPrice := t[i].last.value;
    var effectiveBuy := EffectiveBuy(buyPrice, t[i].feeRate);
    var reports: seq<Report> := [];
    var j := 0;
    while j < |t|
      invariant 0 <= j <= |t|
      invariant RowPrefix(t, i, j, threshold) == Outcome(reports, false)
    {
      if t[j].name != t[i].name {
        if t[j].last.None? || effectiveBuy == 0.0 {
          RowCrashSticks(t, i, j + 1, |t|, threshold);
          return Outcome(reports, true);
        }
        var effectiveSell := EffectiveSell(t[j].last.value, t[j].feeRate);
        var profit := ProfitPercent(effectiveBuy, effectiveSell);
        if profit >= threshold {
          reports := reports + [Report(t[i].name, t[j].name, buyPrice, effectiveBuy,
                                       t[j].last.value, effectiveSell, profit)];
        }
      }
      j := j + 1;
    }
    row := Outcome(reports, false);
  }

  /** The outer loop of `check_opportunities` over the buy entries. */
  method EvaluateTable(t: seq<Quote>, threshold: real) returns (outcome: Outcome)
    ensures outcome == TablePrefix(t, |t|, threshold)
  {
    var reports: seq<Report> := [];
    var i := 0;
    while i < |t|
      invariant 0 <= i <= |t|
      invariant TablePrefix(t, i, threshold) == Outcome(reports, false)
    {
      if t[i].last.None? {
        TableCrashSticks(t, i + 1, |t|, threshold);
        return Outcome(reports, true);
      }
      var row := EvaluateRow(t, i, threshold);
      if row.crashed {
        TableCrashSticks(t, i + 1, |t|, threshold);
        return Outcome(reports + row.reports, true);
      }
      reports := reports + row.reports;
      i := i + 1;
    }
    outcome := Outcome(reports, false);
  }

  class ArbitrageStrategy {
    /** `self.exchanges`: read by the evaluation, never changed. */
    const exchanges: seq<Venue>

    constructor (exchanges: seq<Venue>)
      requires DistinctNames(exchanges)
      ensures this.exchanges == exchanges
    {
      this.exchanges := exchanges;
    }

    /**
     * `check_opportunities`: builds the price table from the fetch results and
     * runs the ordered-pair profit loop, returning the table and what it logs.
     */
    method CheckOpportunities(results: seq<FetchResult>, threshold: real)
      returns (tickers: seq<Quote>, outcome: Outcome)
      requires |results| == |exchanges|
      ensures tickers == TickerTable(exchanges, results)
      ensures outcome == Evaluate(tickers, threshold)
      ensures |tickers| < 2 ==> outcome == Outcome([], false)
    {
      tickers := [];
      var k := 0;
      while k < |exchanges|
        invariant 0 <= k <= |exchanges|
        invariant tickers == TickerTable(exchanges[..k], results[..k])
      {
        assert exchanges[..k + 1][..k] == exchanges[..k] && results[..k + 1][..k] == results[..k];
        if results[k].Ticker? {
          tickers := tickers + [Quote(exchanges[k].name, exchanges[k].feeRate, results[k].last)];
        }
        k := k + 1;
      }
      assert exchanges[..k] == exchanges && results[..k] == results;
      if |tickers| < 2 {
        return tickers, Outcome([], false);
      }
      outcome := EvaluateTable(tickers, threshold);
    }
  }
}
