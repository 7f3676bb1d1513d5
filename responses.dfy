/**
 * The decoded replies the three exchange adapters read. A request whose
 * sending, status or JSON decoding raised is `Failed`; the adapters catch
 * that exception and return their fallback value.
 */
module Responses {
  import opened Collections

  datatype Response<T> = Failed | Decoded(body: T)

  /** A decoded price field: a value `float()` accepts, or one on which it raises. */
  datatype PriceText = Number(value: real) | NotNumber

  /** A ticker object and its price field (`price` on Kucoin, `last` on Bitget and Bitstamp). */
  datatype Ticker = Ticker(price: Option<PriceText>)

  /**
   * `float(ticker.get(field, 0))` inside the adapter's `try`: a missing field
   * reads as 0.0, a value `float()` rejects is caught and gives `None`.
   */
  function ReadPrice(field: Option<PriceText>): (r: Option<real>)
    ensures field.None? ==> r == Some(0.0)
    ensures r.None? <==> field == Some(NotNumber)
    ensures field.Some? && field.value.Number? ==> r == Some(field.value.value)
  {
    match field
    case None => Some(0.0)
    case Some(NotNumber) => None
    case Some(Number(v)) => Some(v)
  }
}
