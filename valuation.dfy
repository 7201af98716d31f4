/** Graham-number valuation of one ticker (stock_bot.py,
    get_intrinsic_value_advice). */
module Valuation {
  import opened Common

  const GrahamFactor: real := 22.5

  /** The fundamentals the data provider reports; any field may be missing. */
  datatype Fundamentals = Fundamentals(
    trailingEps: Option<real>,
    forwardEps: Option<real>,
    bookValue: Option<real>,
    priceToBook: Option<real>)

  /** Python's `a or b` on an optional number: `a` when it is present and
      nonzero, otherwise `b` as it is. */
  function OrElse(a: Option<real>, b: Option<real>): (r: Option<real>)
    ensures r == a || r == b
    ensures a.Some? && a.value != 0.0 ==> r == a
    ensures !(a.Some? && a.value != 0.0) ==> r == b
  {
    if a.Some? && a.value != 0.0 then a else b
  }

  function Eps(f: Fundamentals): Option<real> { OrElse(f.trailingEps, f.forwardEps) }
  function BookValue(f: Fundamentals): Option<real> { OrElse(f.bookValue, f.priceToBook) }

  /** The valuation is possible when earnings are positive and the book
      value is positive. A zero or missing book value fails the script's
      truthiness test. A negative one makes the square root complex; the
      model reports no valuation for it. */
  predicate HasGrahamInputs(f: Fundamentals)
  {
    Eps(f).Some? && Eps(f).value > 0.0 && BookValue(f).Some? && BookValue(f).value > 0.0
  }

  /** The radicand 22.5 * EPS * book value. */
  function GrahamSquare(f: Fundamentals): (sq: real)
    requires HasGrahamInputs(f)
    ensures sq > 0.0
  {
    GrahamFactor * Eps(f).value * BookValue(f).value
  }

  /** `root` is the square root the script takes of the radicand, when
      there is one to take. */
  predicate IsGrahamRoot(f: Fundamentals, root: real)
  {
    HasGrahamInputs(f) ==> root >= 0.0 && root * root == GrahamSquare(f)
  }

  datatype ValueSignal =
    | Discount(pct: real, fairValue: real)   // live price below the Graham number
    | Premium(pct: real, fairValue: real)    // live price at or above it
    | DataUnavailable

  /** Discount or premium of the live price, as a percentage of the
      Graham number. */
  function IntrinsicValueAdvice(f: Fundamentals, price: real, root: real): (s: ValueSignal)
    requires IsGrahamRoot(f, root)
    ensures s == DataUnavailable <==> !HasGrahamInputs(f)
    ensures !s.DataUnavailable? ==> s.fairValue == root && root > 0.0
    ensures s.Discount? <==> HasGrahamInputs(f) && price < root
    ensures s.Discount? ==> 0.0 < s.pct && (price >= 0.0 ==> s.pct <= 100.0)
    ensures s.Premium? ==> s.pct >= 0.0
  {
    if !HasGrahamInputs(f) then DataUnavailable
    else
      assert root > 0.0;
      if price < root then Discount((root - price) / root * 100.0, root)
      else Premium((price - root) / root * 100.0, root)
  }

  /** The comparison needs no square root: for a non-negative price, the
      stock is at a discount exactly when price squared is below
      22.5 * EPS * book value. */
  lemma DiscountIffBelowGrahamSquare(f: Fundamentals, price: real, root: real)
    requires IsGrahamRoot(f, root) && HasGrahamInputs(f) && price >= 0.0
    ensures IntrinsicValueAdvice(f, price, root).Discount? <==> price * price < GrahamSquare(f)
  {
    if price < root {
      assert price * price <= price * root < root * root;
    } else {
      assert price * price >= root * price >= root * root;
    }
  }

  /** The live price can be recovered from the reported percentage and fair
      value: the percentage is a faithful distance from the Graham number. */
  lemma PriceFromSignal(f: Fundamentals, price: real, root: real)
    requires IsGrahamRoot(f, root) && HasGrahamInputs(f)
    ensures var s := IntrinsicValueAdvice(f, price, root);
            (s.Discount? ==> price == s.fairValue * (1.0 - s.pct / 100.0)) &&
            (s.Premium? ==> price == s.fairValue * (1.0 + s.pct / 100.0))
  {
    assert root > 0.0;
    var s := IntrinsicValueAdvice(f, price, root);
    if s.Discount? {
      assert s.pct / 100.0 * root == root - price;
    } else {
      assert s.pct / 100.0 * root == price - root;
    }
  }

  /** Trailing earnings win over forward earnings unless they are missing
      or zero; a zero trailing figure falls back even to a missing forward one. */
  lemma EpsFallback(f: Fundamentals)
    ensures f.trailingEps.Some? && f.trailingEps.value != 0.0 ==> Eps(f) == f.trailingEps
    ensures f.trailingEps == Some(0.0) && f.forwardEps == None ==> !HasGrahamInputs(f)
  {
  }
}
