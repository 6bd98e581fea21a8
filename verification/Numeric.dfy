/** Market precision and quote arithmetic. */
module Numeric {
  import opened Models

  const DEFAULT_CONFIG_VERSION: int := 1

  datatype Precision = Precision(priceScale: nat, quantityScale: nat, quoteScale: nat, configVersion: int)

  const DEFAULT_PRECISION := Precision(8, 8, 8, DEFAULT_CONFIG_VERSION)

  function Pow10(n: nat): (r: nat)
    ensures r > 0
  {
    if n == 0 then 1 else 10 * Pow10(n - 1)
  }

  /** What one quote unit of exact value is divided by. */
  function Divisor(p: Precision): (d: nat)
    ensures d > 0
  {
    Pow10(p.priceScale) * Pow10(p.quantityScale)
  }

  /** Quote atoms of an execution, rounded down; refused when negative or beyond int64. */
  function QuoteAmount(p: Precision, price: int, quantity: int): (q: Result<int, string>) {
    if price < 0 || quantity < 0 then Err("price and quantity cannot be negative")
    else
      var quotient := price * quantity * Pow10(p.quoteScale) / Divisor(p);
      if IsInt64(quotient) then Ok(quotient) else Err("quote amount overflows int64")
  }
}
