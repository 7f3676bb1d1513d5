/**
 * main.py: the pairs listed on both Bitget and Bitstamp (`get_common_pairs`)
 * and the fee-free scan of `main` over them, which records, for every pair
 * whose two prices differ, the cheaper exchange as the buy side. The listings
 * and the prices `get_price` returned for each common pair are parameters.
 */
module MainScan {
  import opened Collections
  import opened Fees

  /**
   * `get_common_pairs`: `list(set(pairs1) & set(pairs2))`, each common pair
   * once, in the unspecified order of set iteration.
   */
  method GetCommonPairs(pairs1: seq<string>, pairs2: seq<string>) returns (common: seq<string>)
    ensures NoDuplicates(common)
    ensures forall p :: p in common <==> p in pairs1 && p in pairs2
  {
    common := ToList(Elements(pairs1) * Elements(pairs2));
  }

  datatype Exchange = Bitget | Bitstamp

  /** One appended `arbitrage_opportunities` entry. */
  datatype Opportunity = Opportunity(pair: string, buy: Exchange, sell: Exchange,
                                     priceBuy: real, priceSell: real, differencePercent: real)

  /** What one iteration of the loop does for one pair. */
  datatype Step = Skip | Record(opportunity: Opportunity) | DivisionByZero

  /**
   * One loop iteration: a None price skips the pair; otherwise the strictly
   * cheaper exchange is the buy side and the difference is relative to its
   * price (a zero there raises ZeroDivisionError); equal prices record nothing.
   */
  function PairStep(pair: string, priceBitget: Option<real>, priceBitstamp: Option<real>): (r: Step)
    ensures priceBitget.None? || priceBitstamp.None? ==> r == Skip
    ensures priceBitget.Some? && priceBitstamp.Some? && priceBitget.value == priceBitstamp.value ==> r == Skip
    ensures r.Record? ==> priceBitget.Some? && priceBitstamp.Some?
    ensures r.Record? ==> var o := r.opportunity;
              && o.pair == pair && o.buy != o.sell
              && o.priceBuy < o.priceSell
              && o.priceBuy != 0.0 && o.differencePercent == ProfitPercent(o.priceBuy, o.priceSell)
              && (o.buy == Bitget <==> priceBitget.value < priceBitstamp.value)
              && o.priceBuy == (if o.buy == Bitget then priceBitget.value else priceBitstamp.value)
              && o.priceSell == (if o.sell == Bitget then priceBitget.value else priceBitstamp.value)
    ensures priceBitget.Some? && priceBitstamp.Some? && priceBitget.value != priceBitstamp.value ==>
              (r == DivisionByZero <==> (priceBitget.value == 0.0 || priceBitstamp.value == 0.0)
                                        && (priceBitget.value >= 0.0 && priceBitstamp.value >= 0.0))
    ensures priceBitget.Some? && priceBitstamp.Some? && priceBitget.value != priceBitstamp.value ==>
              (r.Record? <==> r != DivisionByZero)
  {
    if priceBitget.None? || priceBitstamp.None? then Skip
    else
      var pg, ps := priceBitget.value, priceBitstamp.value;
      if pg < ps then
        if pg == 0.0 then DivisionByZero
        else Record(Opportunity(pair, Bitget, Bitstamp, pg, ps, (ps - pg) / pg * 100.0))
      else if ps < pg then
        if ps == 0.0 then DivisionByZero
        else Record(Opportunity(pair, Bitstamp, Bitget, ps, pg, (pg - ps) / ps * 100.0))
      else Skip
  }

  /** The opportunities recorded, and whether the loop stopped on ZeroDivisionError. */
  datatype Scan = Scan(opportunities: seq<Opportunity>, crashed: bool)

  /** The loop after its first `k` pairs. */
  function ScanPrefix(pairs: seq<string>, prices: seq<(Option<real>, Option<real>)>, k: nat): Scan
    requires |pairs| == |prices| && k <= |pairs|
  {
    if k == 0 then Scan([], false)
    else
      var s := ScanPrefix(pairs, prices, k - 1);
      if s.crashed then s
      else match PairStep(pairs[k - 1], prices[k - 1].0, prices[k - 1].1)
        case Skip => s
        case Record(o) => Scan(s.opportunities + [o], false)
        case DivisionByZero => Scan(s.opportunities, true)
  }

  /** The loop of `main` over the common pairs, `prices[k]` being (Bitget, Bitstamp) for `pairs[k]`. */
  method FindOpportunities(pairs: seq<string>, prices: seq<(Option<real>, Option<real>)>) returns (scan: Scan)
    requires |pairs| == |prices|
    ensures scan == ScanPrefix(pairs, prices, |pairs|)
  {
    var opportunities: seq<Opportunity> := [];
    var k := 0;
    while k < |pairs|
      invariant 0 <= k <= |pairs|
      invariant ScanPrefix(pairs, prices, k) == Scan(opportunities, false)
    {
      var (priceBitget, priceBitstamp) := prices[k];
      if priceBitget.Some? && priceBitstamp.Some? {
        var pg, ps := priceBitget.value, priceBitstamp.value;
        if pg < ps {
          if pg == 0.0 {
            ScanCrashSticks(pairs, prices, k + 1, |pairs|);
            return Scan(opportunities, true);
          }
          opportunities := opportunities + [Opportunity(pairs[k], Bitget, Bitstamp, pg, ps, (ps - pg) / pg * 100.0)];
        } else if ps < pg {
          if ps == 0.0 {
            ScanCrashSticks(pairs, prices, k + 1, |pairs|);
            return Scan(opportunities, true);
          }
          opportunities := opportunities + [Opportunity(pairs[k], Bitstamp, Bitget, ps, pg, (pg - ps) / ps * 100.0)];
        }
      }
      k := k + 1;
    }
    scan := Scan(opportunities, false);
  }

  lemma {:induction false} ScanCrashSticks(pairs: seq<string>, prices: seq<(Option<real>, Option<real>)>, k: nat, m: nat)
    requires |pairs| == |prices| && k <= m <= |pairs|
    requires ScanPrefix(pairs, prices, k).crashed
    ensures ScanPrefix(pairs, prices, m) == ScanPrefix(pairs, prices, k)
    decreases m
  {
    if m > k { ScanCrashSticks(pairs, prices, k, m - 1); }
  }

  /** At most one opportunity per pair. */
  predicate OnePerPair(opportunities: seq<Opportunity>) {
    forall a, b :: 0 <= a < b < |opportunities| ==> opportunities[a].pair != opportunities[b].pair
  }

  /**
   * Without a division by zero the scan records exactly the opportunities of
   * the pairs whose step records one; with one it stops.
   */
  lemma {:induction false} ScanMembers(pairs: seq<string>, prices: seq<(Option<real>, Option<real>)>, k: nat)
    requires |pairs| == |prices| && k <= |pairs|
    ensures ScanPrefix(pairs, prices, k).crashed <==>
              exists m :: 0 <= m < k && PairStep(pairs[m], prices[m].0, prices[m].1) == DivisionByZero
    ensures forall o :: o in ScanPrefix(pairs, prices, k).opportunities ==>
              exists m :: 0 <= m < k && PairStep(pairs[m], prices[m].0, prices[m].1) == Record(o)
    ensures !ScanPrefix(pairs, prices, k).crashed ==>
              forall m :: 0 <= m < k && PairStep(pairs[m], prices[m].0, prices[m].1).Record? ==>
                PairStep(pairs[m], prices[m].0, prices[m].1).opportunity in ScanPrefix(pairs, prices, k).opportunities
  {
    if k > 0 {
      ScanMembers(pairs, prices, k - 1);
    }
  }

  /** A pair list without duplicates gives at most one opportunity per pair. */
  lemma {:induction false} ScanOnePerPair(pairs: seq<string>, prices: seq<(Option<real>, Option<real>)>, k: nat)
    requires |pairs| == |prices| && k <= |pairs| && NoDuplicates(pairs)
    ensures OnePerPair(ScanPrefix(pairs, prices, k).opportunities)
  {
    if k > 0 {
      ScanOnePerPair(pairs, prices, k - 1);
      ScanMembers(pairs, prices, k - 1);
      var s := ScanPrefix(pairs, prices, k - 1);
      var step := PairStep(pairs[k - 1], prices[k - 1].0, prices[k - 1].1);
      if !s.crashed && step.Record? {
        forall o | o in s.opportunities ensures o.pair != step.opportunity.pair {
          var m :| 0 <= m < k - 1 && PairStep(pairs[m], prices[m].0, prices[m].1) == Record(o);
          assert o.pair == pairs[m] != pairs[k - 1];
        }
        var all := s.opportunities + [step.opportunity];
        forall a, b | 0 <= a < b < |all| ensures all[a].pair != all[b].pair {
          if b == |all| - 1 { assert all[a] in s.opportunities; }
        }
      }
    }
  }

  /**
   * With positive prices (or missing ones) nothing divides by zero, and every
   * record buys strictly cheaper than it sells, at a positive difference.
   */
  lemma PositivePricesScan(pairs: seq<string>, prices: seq<(Option<real>, Option<real>)>)
    requires |pairs| == |prices|
    requires forall k :: 0 <= k < |prices| ==>
               (prices[k].0.Some? ==> prices[k].0.value > 0.0) && (prices[k].1.Some? ==> prices[k].1.value > 0.0)
    ensures !ScanPrefix(pairs, prices, |pairs|).crashed
    ensures forall o :: o in ScanPrefix(pairs, prices, |pairs|).opportunities ==>
              o.priceBuy < o.priceSell && o.differencePercent > 0.0
  {
    ScanMembers(pairs, prices, |pairs|);
  }
}
