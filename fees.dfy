/**
 * Fee-adjusted prices (utils.py) and the relative profit of buying at one
 * effective price and selling at another (arbitrage.py). Prices and fee rates
 * are exact reals; the fee rate is a percentage.
 */
module Fees {

  /**
   * `calculate_effective_buy`: the price raised by the fee. utils.py defines
   * it twice with the same expression, so the second definition, the one
   * that takes effect, computes what the documented first one does.
   */
  function EffectiveBuy(price: real, feeRate: real): (r: real)
    ensures price >= 0.0 && feeRate >= 0.0 ==> r >= price
    ensures feeRate == 0.0 ==> r == price
    ensures price > 0.0 && feeRate >= 0.0 ==> r > 0.0
  {
    price * (1.0 + feeRate / 100.0)
  }

  /** `calculate_effective_sell`: the price lowered by the fee (also defined twice, identically). */
  function EffectiveSell(price: real, feeRate: real): (r: real)
    ensures price >= 0.0 && feeRate >= 0.0 ==> r <= price
    ensures feeRate == 0.0 ==> r == price
    ensures price >= 0.0 && 0.0 <= feeRate <= 100.0 ==> r >= 0.0
    ensures EffectiveBuy(price, feeRate) - price == price - r
  {
    price * (1.0 - feeRate / 100.0)
  }

  /** `((effective_sell - effective_buy) / effective_buy) * 100`. */
  function ProfitPercent(effectiveBuy: real, effectiveSell: real): (r: real)
    requires effectiveBuy != 0.0
    ensures effectiveBuy > 0.0 ==> (r == 0.0 <==> effectiveSell == effectiveBuy)
    ensures effectiveBuy > 0.0 ==> (r > 0.0 <==> effectiveSell > effectiveBuy)
  {
    (effectiveSell - effectiveBuy) / effectiveBuy * 100.0
  }

  /**
   * With positive prices, non-negative fees and a positive threshold, the two
   * directions between two venues cannot both clear the threshold.
   */
  lemma AtMostOneDirection(priceA: real, feeA: real, priceB: real, feeB: real, threshold: real)
    requires priceA > 0.0 && priceB > 0.0 && feeA >= 0.0 && feeB >= 0.0 && threshold > 0.0
    ensures !(ProfitPercent(EffectiveBuy(priceA, feeA), EffectiveSell(priceB, feeB)) >= threshold
              && ProfitPercent(EffectiveBuy(priceB, feeB), EffectiveSell(priceA, feeA)) >= threshold)
  {
    var buyA, sellB := EffectiveBuy(priceA, feeA), EffectiveSell(priceB, feeB);
    var buyB, sellA := EffectiveBuy(priceB, feeB), EffectiveSell(priceA, feeA);
    if ProfitPercent(buyA, sellB) >= threshold {
      assert sellB > buyA;
      assert buyB >= priceB >= sellB;
      assert buyA >= priceA >= sellA;
      assert sellA < buyB;
    }
  }
}
