/** Small value types shared by the advisory rules. */
module Common {

  /** A value that may be absent: a missing field of a market-data record,
      an unparseable buy date, a ticker the provider returned nothing for. */
  datatype Option<+T> = None | Some(value: T)

  /** Sum of a sequence of amounts, taken from the front. */
  function Sum(xs: seq<real>): real
  {
    if |xs| == 0 then 0.0 else xs[0] + Sum(xs[1..])
  }

  /** With a positive factor, a product has the sign of the other factor. */
  lemma SignOfProduct(x: real, pos: real, product: real)
    requires pos > 0.0 && product == x * pos
    ensures product > 0.0 <==> x > 0.0
    ensures product < 0.0 <==> x < 0.0
  {
  }

  /** A quotient is the factor that multiplies the divisor back to the dividend. */
  lemma QuotientFromProduct(a: real, b: real, q: real)
    requires b != 0.0 && q * b == a
    ensures a / b == q
  {
  }
}
