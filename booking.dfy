/** Profit-booking filter over a table of positions (stock_bot.py,
    get_profit_booking_advice). */
module Booking {

  /** The columns the filter reads: ticker, quantity, average price and
      profit/loss. */
  datatype Position = Position(ticker: string, qty: nat, avgPrice: real, pl: real)

  /** A gain of at least this percentage of the invested amount is flagged. */
  const BookingThreshold: real := 20.0

  function Invested(p: Position): real { p.avgPrice * p.qty as real }

  function GainPct(p: Position): real
    requires Invested(p) != 0.0
  {
    p.pl / Invested(p) * 100.0
  }

  predicate Qualifies(p: Position)
    requires Invested(p) != 0.0
  {
    GainPct(p) >= BookingThreshold
  }

  /** A flagged holding, with its gain in percent and in money. */
  datatype Candidate = Candidate(ticker: string, gainPct: real, pl: real)

  function CandidateOf(p: Position): Candidate
    requires Invested(p) != 0.0
  {
    Candidate(p.ticker, GainPct(p), p.pl)
  }

  /** Every position has a nonzero cost basis, so its percentage exists. */
  predicate AllPriced(ps: seq<Position>)
  {
    forall i :: 0 <= i < |ps| ==> Invested(ps[i]) != 0.0
  }

  datatype Booking =
    | HoldAll                             // nothing reached the threshold
    | BookProfits(candidates: seq<Candidate>)
    | ZeroCostBasis(ticker: string)       // the percentage divided by zero; the listing is abandoned

  /** The candidates in input order. */
  function Flagged(ps: seq<Position>): seq<Candidate>
    requires AllPriced(ps)
  {
    if |ps| == 0 then []
    else
      var last := ps[|ps| - 1];
      Flagged(ps[..|ps| - 1]) + (if Qualifies(last) then [CandidateOf(last)] else [])
  }

  /** Position of the first zero cost basis, or the length when there is none. */
  function FirstUnpriced(ps: seq<Position>): (k: nat)
    ensures k <= |ps|
    ensures AllPriced(ps[..k])
    ensures k < |ps| ==> Invested(ps[k]) == 0.0
  {
    if |ps| == 0 then 0
    else if Invested(ps[0]) == 0.0 then 0
    else
      var k := FirstUnpriced(ps[1..]);
      k + 1
  }

  /** The outcome of the filter as a value. */
  function BookingOf(ps: seq<Position>): Booking
  {
    var k := FirstUnpriced(ps);
    if k < |ps| then ZeroCostBasis(ps[k].ticker)
    else
      assert ps[..k] == ps;
      if Flagged(ps) == [] then HoldAll else BookProfits(Flagged(ps))
  }

  /** Walks the rows, appending each qualifying one; a zero cost basis
      aborts the walk. */
  method ProfitBookingAdvice(ps: seq<Position>) returns (b: Booking)
    ensures b == BookingOf(ps)
  {
    var listed: seq<Candidate> := [];
    var i := 0;
    while i < |ps|
      invariant 0 <= i <= |ps|
      invariant AllPriced(ps[..i])
      invariant listed == Flagged(ps[..i])
    {
      var p := ps[i];
      var invested := p.avgPrice * p.qty as real;
      if invested == 0.0 {
        UnpricedAt(ps, i);
        return ZeroCostBasis(p.ticker);
      }
      var pct := p.pl / invested * 100.0;
      assert pct == GainPct(p);
      if pct >= BookingThreshold {
        listed := listed + [Candidate(p.ticker, pct, p.pl)];
      }
      FlaggedStep(ps, i);
      i := i + 1;
    }
    assert ps[..i] == ps;
    UnpricedAt(ps, i);
    b := if listed == [] then HoldAll else BookProfits(listed);
  }

  /** The walk stops at the first zero cost basis, or at the end. */
  lemma UnpricedAt(ps: seq<Position>, i: nat)
    requires i <= |ps| && AllPriced(ps[..i])
    requires i < |ps| ==> Invested(ps[i]) == 0.0
    ensures FirstUnpriced(ps) == i
  {
    var k := FirstUnpriced(ps);
    assert forall j :: 0 <= j < i ==> ps[..i][j] == ps[j];
    assert forall j :: 0 <= j < k ==> ps[..k][j] == ps[j];
  }

  /** One more priced row extends the listing by that row, if it qualifies. */
  lemma FlaggedStep(ps: seq<Position>, i: nat)
    requires i < |ps| && AllPriced(ps[..i]) && Invested(ps[i]) != 0.0
    ensures AllPriced(ps[..i + 1])
    ensures Flagged(ps[..i + 1]) == Flagged(ps[..i]) + if Qualifies(ps[i]) then [CandidateOf(ps[i])] else []
  {
    assert ps[..i + 1][..i] == ps[..i];
    assert ps[..i + 1][i] == ps[i];
  }

  /** What the advice promises, stated on its value. */
  lemma BookingProperties(ps: seq<Position>)
    ensures BookingOf(ps).ZeroCostBasis? <==> !AllPriced(ps)
    ensures BookingOf(ps) == HoldAll <==> AllPriced(ps) && forall i :: 0 <= i < |ps| ==> !Qualifies(ps[i])
    ensures BookingOf(ps).BookProfits? ==>
              BookingOf(ps).candidates != [] &&
              forall c :: c in BookingOf(ps).candidates ==> c.gainPct >= BookingThreshold
  {
    var k := FirstUnpriced(ps);
    if k == |ps| {
      assert ps[..k] == ps;
      FlaggedMembers(ps);
      assert forall i :: 0 <= i < |ps| ==> (Qualifies(ps[i]) ==> CandidateOf(ps[i]) in Flagged(ps));
      if Flagged(ps) != [] {
        assert Flagged(ps)[0] in Flagged(ps);
      }
    }
  }

  /** A candidate is listed exactly when some row reached the threshold. */
  lemma {:induction false} FlaggedMembers(ps: seq<Position>)
    requires AllPriced(ps)
    ensures forall c :: c in Flagged(ps) <==>
              exists i :: 0 <= i < |ps| && Qualifies(ps[i]) && c == CandidateOf(ps[i])
  {
    if |ps| > 0 {
      var front := ps[..|ps| - 1];
      FlaggedMembers(front);
      forall c | c in Flagged(ps)
        ensures exists i :: 0 <= i < |ps| && Qualifies(ps[i]) && c == CandidateOf(ps[i])
      {
        if c in Flagged(front) {
          var i :| 0 <= i < |front| && Qualifies(front[i]) && c == CandidateOf(front[i]);
          assert ps[i] == front[i];
        } else {
          assert Qualifies(ps[|ps| - 1]) && c == CandidateOf(ps[|ps| - 1]);
        }
      }
      forall c | exists i :: 0 <= i < |ps| && Qualifies(ps[i]) && c == CandidateOf(ps[i])
        ensures c in Flagged(ps)
      {
        var i :| 0 <= i < |ps| && Qualifies(ps[i]) && c == CandidateOf(ps[i]);
        if i < |ps| - 1 {
          assert front[i] == ps[i];
        }
      }
    }
  }

  /** Filtering keeps input order: the listing of two tables one after the
      other is the two listings one after the other. */
  lemma {:induction false} FlaggedKeepsOrder(xs: seq<Position>, ys: seq<Position>)
    requires AllPriced(xs) && AllPriced(ys)
    ensures AllPriced(xs + ys)
    ensures Flagged(xs + ys) == Flagged(xs) + Flagged(ys)
  {
    if |ys| > 0 {
      var front := ys[..|ys| - 1];
      assert (xs + ys)[..|xs + ys| - 1] == xs + front;
      FlaggedKeepsOrder(xs, front);
    } else {
      assert xs + ys == xs;
    }
  }

  /** For a positive cost basis the threshold needs no division: the gain
      must be at least a fifth of what was invested. */
  lemma QualifiesIffFifthOfCost(p: Position)
    requires Invested(p) > 0.0
    ensures Qualifies(p) <==> p.pl >= 0.2 * Invested(p)
  {
    assert GainPct(p) * Invested(p) == p.pl * 100.0;
  }

  /** For one position whose P/L is (live - avg) * qty, bought at a positive
      price, booking is advised exactly when the live price is at least 20%
      above the average price. */
  lemma SingleHoldingBookedIffUpTwentyPercent(ticker: string, qty: nat, avg: real, live: real)
    requires qty >= 1 && avg > 0.0
    ensures var p := Position(ticker, qty, avg, (live - avg) * qty as real);
            BookingOf([p]).BookProfits? <==> live >= 1.2 * avg
  {
    var p := Position(ticker, qty, avg, (live - avg) * qty as real);
    assert Invested(p) > 0.0;
    QualifiesIffFifthOfCost(p);
    assert [p][..0] == [];
    assert FirstUnpriced([p]) == 1;
    assert [p][..1] == [p];
    assert Flagged([p]) == (if Qualifies(p) then [CandidateOf(p)] else []);
    var q := qty as real;
    assert p.pl - 0.2 * Invested(p) == (live - 1.2 * avg) * q;
  }

  /** The filter on a one-row table, as the per-holding loop uses it. */
  lemma SinglePositionBooking(p: Position)
    ensures Invested(p) == 0.0 ==> BookingOf([p]) == ZeroCostBasis(p.ticker)
    ensures Invested(p) != 0.0 ==>
              BookingOf([p]) == if Qualifies(p) then BookProfits([CandidateOf(p)]) else HoldAll
  {
    assert [p][..0] == [];
    assert [p][1..] == [];
    assert [p][..1] == [p];
    if Invested(p) != 0.0 {
      assert FirstUnpriced([p]) == 1;
      assert Flagged([p]) == (if Qualifies(p) then [CandidateOf(p)] else []);
    }
  }
}
