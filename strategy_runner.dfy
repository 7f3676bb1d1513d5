/**
 * arbitrage_strategy.py: `run_arbitrage`. For every common pair it takes
 * the prices of the pair on the two exchanges of `exchange_mapping`, skips
 * the pair when a price is missing or zero, and records an opportunity when
 * `calculate_difference` of the two prices reaches the threshold, buying on
 * the exchange with the lower price. `calculate_difference` is not defined in
 * any of the repository's files, so it is a parameter; the prices `get_price`
 * returned are parameters too, one pair of prices per common pair.
 */
module StrategyRunner {
  import opened Collections

  /** One element of `common_pairs`: `(original_symbol_ex1, original_symbol_ex2, normalized_symbol)`. */
  datatype CommonPair = CommonPair(symbolEx1: string, symbolEx2: string, normalized: string)

  /** One appended `arbitrage_opportunities` entry. */
  datatype Opportunity = Opportunity(pair: string, buy: string, sell: string,
                                     priceBuy: real, priceSell: real, differencePercent: real)

  /** A price the loop accepts: neither None nor 0. */
  predicate UsablePrice(p: Option<real>) { p.Some? && p.value != 0.0 }

  /** One loop iteration for `pair`, once the two exchange names are known. */
  function PairStep(pair: CommonPair, name1: string, name2: string, price1: Option<real>, price2: Option<real>,
                    calculateDifference: (real, real) -> real, threshold: real): (r: Option<Opportunity>)
    ensures r.Some? <==> UsablePrice(price1) && UsablePrice(price2)
                         && calculateDifference(price1.value, price2.value) >= threshold
    ensures r.Some? ==> var o := r.value;
              && o.pair == pair.normalized
              && o.differencePercent == calculateDifference(price1.value, price2.value)
              && o.differencePercent >= threshold
              && o.priceBuy <= o.priceSell
              && (price1.value < price2.value ==>
                    o.buy == name1 && o.sell == name2 && o.priceBuy == price1.value && o.priceSell == price2.value)
              && (price1.value >= price2.value ==>
                    o.buy == name2 && o.sell == name1 && o.priceBuy == price2.value && o.priceSell == price1.value)
  {
    if !UsablePrice(price1) || !UsablePrice(price2) then None
    else
      var p1, p2 := price1.value, price2.value;
      var diff := calculateDifference(p1, p2);
      if diff < threshold then None
      else if p1 < p2 then Some(Opportunity(pair.normalized, name1, name2, p1, p2, diff))
      else Some(Opportunity(pair.normalized, name2, name1, p2, p1, diff))
  }

  /** The opportunities recorded after the first `k` pairs. */
  function RunPrefix(pairs: seq<CommonPair>, name1: string, name2: string, prices: seq<(Option<real>, Option<real>)>,
                     calculateDifference: (real, real) -> real, threshold: real, k: nat): seq<Opportunity>
    requires |pairs| == |prices| && k <= |pairs|
  {
    if k == 0 then []
    else
      var prefix := RunPrefix(pairs, name1, name2, prices, calculateDifference, threshold, k - 1);
      match PairStep(pairs[k - 1], name1, name2, prices[k - 1].0, prices[k - 1].1, calculateDifference, threshold)
      case None => prefix
      case Some(o) => prefix + [o]
  }

  /**
   * `run_arbitrage`: None when it returns early because `exchange_mapping`
   * does not have exactly two entries (checked inside the loop, so only when
   * there is a pair), otherwise the opportunities it logs at the end.
   */
  method RunArbitrage(pairs: seq<CommonPair>, exchangeNames: seq<string>, prices: seq<(Option<real>, Option<real>)>,
                      calculateDifference: (real, real) -> real, threshold: real)
    returns (result: Option<seq<Opportunity>>)
    requires |pairs| == |prices|
    ensures |pairs| > 0 && |exchangeNames| != 2 ==> result == None
    ensures |pairs| == 0 ==> result == Some([])
    ensures |pairs| > 0 && |exchangeNames| == 2 ==>
              result == Some(RunPrefix(pairs, exchangeNames[0], exchangeNames[1], prices, calculateDifference, threshold, |pairs|))
  {
    var opportunities: seq<Opportunity> := [];
    var k := 0;
    while k < |pairs|
      invariant 0 <= k <= |pairs|
      invariant k == 0 ==> opportunities == []
      invariant k > 0 ==> |exchangeNames| == 2
      invariant k > 0 ==>
                  opportunities == RunPrefix(pairs, exchangeNames[0], exchangeNames[1], prices, calculateDifference, threshold, k)
    {
      if |exchangeNames| != 2 {
        return None;
      }
      var name1, name2 := exchangeNames[0], exchangeNames[1];
      var (price1, price2) := prices[k];
      if price1.Some? && price2.Some? && price1.value != 0.0 && price2.value != 0.0 {
        var diff := calculateDifference(price1.value, price2.value);
        if diff >= threshold {
          var opp;
          if price1.value < price2.value {
            opp := Opportunity(pairs[k].normalized, name1, name2, price1.value, price2.value, diff);
          } else {
            opp := Opportunity(pairs[k].normalized, name2, name1, price2.value, price1.value, diff);
          }
          opportunities := opportunities + [opp];
        }
      }
      k := k + 1;
    }
    result := Some(opportunities);
  }

  /** No two common pairs share a normalized symbol. */
  predicate DistinctSymbols(pairs: seq<CommonPair>) {
    forall a, b :: 0 <= a < b < |pairs| ==> pairs[a].normalized != pairs[b].normalized
  }

  /** At most one opportunity per normalized symbol. */
  predicate OnePerPair(opportunities: seq<Opportunity>) {
    forall a, b :: 0 <= a < b < |opportunities| ==> opportunities[a].pair != opportunities[b].pair
  }

  /**
   * The recorded opportunities are exactly those of the pairs whose step
   * records one, in pair order, so there is at most one per distinct
   * normalized symbol.
   */
  lemma {:induction false} RunMembers(pairs: seq<CommonPair>, name1: string, name2: string,
                                      prices: seq<(Option<real>, Option<real>)>,
                                      calculateDifference: (real, real) -> real, threshold: real, k: nat)
    requires |pairs| == |prices| && k <= |pairs|
    ensures forall o :: o in RunPrefix(pairs, name1, name2, prices, calculateDifference, threshold, k) <==>
              exists m :: 0 <= m < k &&
                PairStep(pairs[m], name1, name2, prices[m].0, prices[m].1, calculateDifference, threshold) == Some(o)
    ensures DistinctSymbols(pairs) ==> OnePerPair(RunPrefix(pairs, name1, name2, prices, calculateDifference, threshold, k))
  {
    if k > 0 {
      RunMembers(pairs, name1, name2, prices, calculateDifference, threshold, k - 1);
      var prefix := RunPrefix(pairs, name1, name2, prices, calculateDifference, threshold, k - 1);
      var step := PairStep(pairs[k - 1], name1, name2, prices[k - 1].0, prices[k - 1].1, calculateDifference, threshold);
      var run := RunPrefix(pairs, name1, name2, prices, calculateDifference, threshold, k);
      forall o
        ensures o in run <==>
                  exists m :: 0 <= m < k &&
                    PairStep(pairs[m], name1, name2, prices[m].0, prices[m].1, calculateDifference, threshold) == Some(o)
      {
        if o in prefix {
          var m :| 0 <= m < k - 1 &&
                PairStep(pairs[m], name1, name2, prices[m].0, prices[m].1, calculateDifference, threshold) == Some(o);
        }
      }
      if DistinctSymbols(pairs) && step.Some? {
        forall o | o in prefix ensures o.pair != step.value.pair {
          var m :| 0 <= m < k - 1 &&
                PairStep(pairs[m], name1, name2, prices[m].0, prices[m].1, calculateDifference, threshold) == Some(o);
          assert o.pair == pairs[m].normalized;
          assert step.value.pair == pairs[k - 1].normalized;
        }
        assert run == prefix + [step.value];
        forall a, b | 0 <= a < b < |run| ensures run[a].pair != run[b].pair {
          if b == |run| - 1 {
            assert run[a] == prefix[a];
            assert run[a] in prefix;
          } else {
            assert run[a] == prefix[a] && run[b] == prefix[b];
          }
        }
      }
    }
  }

  /**
   * Every recorded opportunity clears the threshold, buys at the lower of
   * its two prices, and trades between the two named exchanges.
   */
  lemma RunOpportunitiesSound(pairs: seq<CommonPair>, name1: string, name2: string,
                              prices: seq<(Option<real>, Option<real>)>,
                              calculateDifference: (real, real) -> real, threshold: real)
    requires |pairs| == |prices|
    ensures forall o :: o in RunPrefix(pairs, name1, name2, prices, calculateDifference, threshold, |pairs|) ==>
              && o.differencePercent >= threshold
              && o.priceBuy <= o.priceSell
              && ((o.buy, o.sell) == (name1, name2) || (o.buy, o.sell) == (name2, name1))
  {
    RunMembers(pairs, name1, name2, prices, calculateDifference, threshold, |pairs|);
  }
}
