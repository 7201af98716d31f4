/** Evaluation of one holder's rows and the portfolio totals (stock_bot.py,
    the main loop). */
module Holdings {
  import opened Common
  import opened Tax
  import opened Averaging
  import opened Rsi
  import opened Valuation
  import opened Booking
  import opened Market

  /** One row of the holdings table. `heldDays` is the whole number of days
      since the buy date, or `None` when the buy date does not parse. */
  datatype Row = Row(holder: string, ticker: string, qty: nat, avgPrice: real, heldDays: Option<int>)

  /** What the data provider returned for a ticker: the latest close, the
      month of closes for the oscillator, the fundamentals, and the square
      root of the Graham radicand (taken by the runtime library). */
  datatype Quote = Quote(live: real, monthCloses: seq<real>, fundamentals: Fundamentals, grahamRoot: real)

  /** The market data for one run; a ticker that is absent is one whose
      one-day history came back empty. */
  type Feed = map<string, Quote>

  predicate FeedValid(feed: Feed)
  {
    forall t :: t in feed ==> IsGrahamRoot(feed[t].fundamentals, feed[t].grahamRoot)
  }

  /** Everything computed for one holding in one run. */
  datatype Evaluation = Evaluation(
    ticker: string,
    qty: nat,
    avgPrice: real,
    live: real,
    pl: real,
    tax: TaxEstimate,
    averaging: seq<Tier>,
    value: ValueSignal,
    rsi: RsiSignal,
    booking: Booking)

  /** Profit or loss of a holding: its market value minus its cost. */
  function ProfitLoss(qty: nat, avg: real, live: real): (pl: real)
    ensures pl == live * qty as real - avg * qty as real
    ensures qty > 0 ==> (pl > 0.0 <==> live > avg) && (pl < 0.0 <==> live < avg)
  {
    var pl := (live - avg) * qty as real;
    assert qty > 0 ==> (pl > 0.0 <==> live > avg) && (pl < 0.0 <==> live < avg) by {
      if qty > 0 { SignOfProduct(live - avg, qty as real, pl); }
    }
    pl
  }

  function Evaluate(row: Row, quote: Quote): Evaluation
    requires IsGrahamRoot(quote.fundamentals, quote.grahamRoot)
  {
    var pl := ProfitLoss(row.qty, row.avgPrice, quote.live);
    Evaluation(
      row.ticker, row.qty, row.avgPrice, quote.live, pl,
      EstimateTax(row.heldDays, pl),
      AveragingTiers(row.qty, row.avgPrice, quote.live),
      IntrinsicValueAdvice(quote.fundamentals, quote.live, quote.grahamRoot),
      RsiAdvice(quote.monthCloses),
      BookingOf([Position(row.ticker, row.qty, row.avgPrice, pl)]))
  }

  /** The results of a run, as a value: one evaluation per row whose ticker
      has a quote, in row order. */
  function EvaluateAll(rows: seq<Row>, feed: Feed): seq<Evaluation>
    requires FeedValid(feed)
  {
    if |rows| == 0 then []
    else
      var last := rows[|rows| - 1];
      EvaluateAll(rows[..|rows| - 1], feed)
        + (if last.ticker in feed then [Evaluate(last, feed[last.ticker])] else [])
  }

  /** P/L is exactly (live - avg) * qty at the evaluation's live price. */
  predicate ExactPL(e: Evaluation)
  {
    e.pl == (e.live - e.avgPrice) * e.qty as real
  }

  /** Evaluates one quoted row, calling the advisors in the script's order. */
  method EvaluateRow(row: Row, quote: Quote) returns (e: Evaluation)
    requires IsGrahamRoot(quote.fundamentals, quote.grahamRoot)
    ensures e == Evaluate(row, quote)
    ensures ExactPL(e) && e.ticker == row.ticker && e.live == quote.live
  {
    var pl := ProfitLoss(row.qty, row.avgPrice, quote.live);
    var tax := EstimateTax(row.heldDays, pl);
    var averaging := AveragingAdvice(row.qty, row.avgPrice, quote.live);
    var value := IntrinsicValueAdvice(quote.fundamentals, quote.live, quote.grahamRoot);
    var rsi := RsiAdvice(quote.monthCloses);
    var booking := ProfitBookingAdvice([Position(row.ticker, row.qty, row.avgPrice, pl)]);
    e := Evaluation(row.ticker, row.qty, row.avgPrice, quote.live, pl, tax, averaging, value, rsi, booking);
  }

  /** The per-holder loop: rows without a quote are skipped, every other
      row is evaluated and appended. */
  method EvaluateHoldings(rows: seq<Row>, feed: Feed) returns (results: seq<Evaluation>)
    requires FeedValid(feed)
    ensures results == EvaluateAll(rows, feed)
    ensures |results| <= |rows|
    ensures forall e :: e in results ==> ExactPL(e) && e.ticker in feed && e.live == feed[e.ticker].live
  {
    results := [];
    var i := 0;
    while i < |rows|
      invariant 0 <= i <= |rows|
      invariant results == EvaluateAll(rows[..i], feed)
    {
      var row := rows[i];
      assert rows[..i + 1][..i] == rows[..i];
      if row.ticker in feed {
        var e := EvaluateRow(row, feed[row.ticker]);
        results := results + [e];
      }
      i := i + 1;
    }
    assert rows[..i] == rows;
    ResultsComeFromFeed(rows, feed);
  }

  // ---------------------------------------------------------------------
  // Totals

  function MarketValue(e: Evaluation): real { e.qty as real * e.live }
  function Cost(e: Evaluation): real { e.qty as real * e.avgPrice }

  /** Sum of live price times quantity over the results. */
  function TotalValue(results: seq<Evaluation>): real
  {
    if |results| == 0 then 0.0 else MarketValue(results[0]) + TotalValue(results[1..])
  }

  function TotalCost(results: seq<Evaluation>): real
  {
    if |results| == 0 then 0.0 else Cost(results[0]) + TotalCost(results[1..])
  }

  /** Sum of the P/L column over the results. */
  function TotalPL(results: seq<Evaluation>): real
  {
    if |results| == 0 then 0.0 else results[0].pl + TotalPL(results[1..])
  }

  /** Over results that keep the P/L invariant, the total P/L is the total
      market value minus the total cost. */
  lemma {:induction false} TotalPLIsValueMinusCost(results: seq<Evaluation>)
    requires forall e :: e in results ==> ExactPL(e)
    ensures TotalPL(results) == TotalValue(results) - TotalCost(results)
  {
    if |results| > 0 {
      assert results[0] in results;
      assert forall e :: e in results[1..] ==> e in results;
      TotalPLIsValueMinusCost(results[1..]);
    }
  }

  /** The rows a run evaluates: those whose ticker has a quote, in order. */
  function QuotedRows(rows: seq<Row>, feed: Feed): (q: seq<Row>)
    ensures |q| <= |rows|
    ensures forall r :: r in q <==> r in rows && r.ticker in feed
  {
    if |rows| == 0 then []
    else
      var last := rows[|rows| - 1];
      QuotedRows(rows[..|rows| - 1], feed) + (if last.ticker in feed then [last] else [])
  }

  /** The results are exactly the quoted rows, evaluated one for one: no
      row without a quote contributes, and none with a quote is missing. */
  lemma {:induction false} EvaluatesExactlyQuotedRows(rows: seq<Row>, feed: Feed)
    requires FeedValid(feed)
    ensures |EvaluateAll(rows, feed)| == |QuotedRows(rows, feed)|
    ensures forall i :: 0 <= i < |QuotedRows(rows, feed)| ==>
              EvaluateAll(rows, feed)[i] == Evaluate(QuotedRows(rows, feed)[i], feed[QuotedRows(rows, feed)[i].ticker])
  {
    if |rows| > 0 {
      EvaluatesExactlyQuotedRows(rows[..|rows| - 1], feed);
    }
  }

  /** Only the rows of one holder, in table order; a row listed twice is
      kept twice. */
  function RowsOf(table: seq<Row>, holder: string): (rows: seq<Row>)
    ensures forall r :: r in rows <==> r in table && r.holder == holder
    ensures forall r :: multiset(rows)[r] == if r.holder == holder then multiset(table)[r] else 0
  {
    if |table| == 0 then []
    else
      var last := table[|table| - 1];
      assert table == table[..|table| - 1] + [last];
      RowsOf(table[..|table| - 1], holder) + (if last.holder == holder then [last] else [])
  }

  /** Filtering keeps table order: the rows of two tables one after the
      other are the two filtered tables one after the other. */
  lemma {:induction false} RowsOfKeepsOrder(a: seq<Row>, b: seq<Row>, holder: string)
    ensures RowsOf(a + b, holder) == RowsOf(a, holder) + RowsOf(b, holder)
  {
    if |b| > 0 {
      var front := b[..|b| - 1];
      assert (a + b)[..|a + b| - 1] == a + front;
      RowsOfKeepsOrder(a, front, holder);
    } else {
      assert a + b == a;
    }
  }

  /** One holder's report for a run. */
  datatype Snapshot = Snapshot(results: seq<Evaluation>, totalValue: real, totalPL: real, hedge: Hedge)

  /** The holder is skipped when no row of theirs got a quote; otherwise the
      totals are taken over the results and the hedge is sized from the
      total value and the index's recent closes. */
  function HolderSnapshot(table: seq<Row>, holder: string, feed: Feed, indexWeek: seq<real>): (s: Option<Snapshot>)
    requires FeedValid(feed)
    requires |indexWeek| >= 2 ==> indexWeek[0] > 0.0
    ensures s.None? <==> EvaluateAll(RowsOf(table, holder), feed) == []
    ensures s.Some? ==> s.value.results == EvaluateAll(RowsOf(table, holder), feed)
    ensures s.Some? ==> s.value.totalValue == TotalValue(s.value.results) && s.value.totalPL == TotalPL(s.value.results)
    ensures s.Some? ==> s.value.totalPL == s.value.totalValue - TotalCost(s.value.results)
    ensures s.Some? ==> s.value.hedge == HedgingAdvice(s.value.totalValue, indexWeek)
  {
    var results := EvaluateAll(RowsOf(table, holder), feed);
    if results == [] then None
    else
      ResultsComeFromFeed(RowsOf(table, holder), feed);
      TotalPLIsValueMinusCost(results);
      var total := TotalValue(results);
      Some(Snapshot(results, total, TotalPL(results), HedgingAdvice(total, indexWeek)))
  }

  /** Every evaluation a run produces keeps the P/L invariant and prices
      its holding at the quote of its ticker; there are no more results
      than rows. */
  lemma {:induction false} ResultsComeFromFeed(rows: seq<Row>, feed: Feed)
    requires FeedValid(feed)
    ensures |EvaluateAll(rows, feed)| <= |rows|
    ensures forall e :: e in EvaluateAll(rows, feed) ==>
              ExactPL(e) && e.ticker in feed && e.live == feed[e.ticker].live
  {
    if |rows| > 0 {
      var front, last := rows[..|rows| - 1], rows[|rows| - 1];
      ResultsComeFromFeed(front, feed);
      if last.ticker in feed {
        EvaluateKeepsQuote(last, feed[last.ticker]);
      }
    }
  }

  /** One evaluation keeps its row's ticker, the quote's price and exact P/L;
      stated apart so that the induction above does not unfold Evaluate. */
  lemma EvaluateKeepsQuote(row: Row, quote: Quote)
    requires IsGrahamRoot(quote.fundamentals, quote.grahamRoot)
    ensures var e := Evaluate(row, quote);
            ExactPL(e) && e.ticker == row.ticker && e.live == quote.live
  {
  }

  /** The profit-booking columns of a result. */
  function PositionOf(e: Evaluation): Position
  {
    Position(e.ticker, e.qty, e.avgPrice, e.pl)
  }

  function Positions(results: seq<Evaluation>): (ps: seq<Position>)
    ensures |ps| == |results|
    ensures forall i :: 0 <= i < |results| ==> ps[i] == PositionOf(results[i])
  {
    seq(|results|, i requires 0 <= i < |results| => PositionOf(results[i]))
  }

  /** Each result carries the booking advice of its own one-row table. */
  lemma {:induction false} ResultsCarryOwnBooking(rows: seq<Row>, feed: Feed)
    requires FeedValid(feed)
    ensures forall e :: e in EvaluateAll(rows, feed) ==> e.booking == BookingOf([PositionOf(e)])
  {
    if |rows| > 0 {
      ResultsCarryOwnBooking(rows[..|rows| - 1], feed);
    }
  }

  /** The filter run on the whole results table lists exactly the
      holdings whose own one-row advice was to book profits. */
  lemma TableBookingAgreesWithRows(rows: seq<Row>, feed: Feed)
    requires FeedValid(feed)
    requires AllPriced(Positions(EvaluateAll(rows, feed)))
    ensures var results := EvaluateAll(rows, feed);
            forall c :: c in Flagged(Positions(results)) <==>
              exists e :: e in results && e.booking == BookProfits([c])
  {
    var results := EvaluateAll(rows, feed);
    ResultsCarryOwnBooking(rows, feed);
    FlaggedMembers(Positions(results));
    forall c
      ensures c in Flagged(Positions(results)) <==> exists e :: e in results && e.booking == BookProfits([c])
    {
      if c in Flagged(Positions(results)) {
        ListedHasOwnAdvice(results, c);
      }
      if exists e :: e in results && e.booking == BookProfits([c]) {
        OwnAdviceIsListed(results, c);
      }
    }
  }

  lemma ListedHasOwnAdvice(results: seq<Evaluation>, c: Candidate)
    requires forall e :: e in results ==> e.booking == BookingOf([PositionOf(e)])
    requires AllPriced(Positions(results))
    requires exists i :: 0 <= i < |results| && Qualifies(Positions(results)[i]) && c == CandidateOf(Positions(results)[i])
    ensures exists e :: e in results && e.booking == BookProfits([c])
  {
    var ps := Positions(results);
    var i :| 0 <= i < |results| && Qualifies(ps[i]) && c == CandidateOf(ps[i]);
    SinglePositionBooking(ps[i]);
    assert results[i] in results;
  }

  lemma OwnAdviceIsListed(results: seq<Evaluation>, c: Candidate)
    requires forall e :: e in results ==> e.booking == BookingOf([PositionOf(e)])
    requires AllPriced(Positions(results))
    requires exists e :: e in results && e.booking == BookProfits([c])
    ensures exists i :: 0 <= i < |results| && Qualifies(Positions(results)[i]) && c == CandidateOf(Positions(results)[i])
  {
    var ps := Positions(results);
    var e :| e in results && e.booking == BookProfits([c]);
    var i :| 0 <= i < |results| && results[i] == e;
    assert ps[i] == PositionOf(e);
    SinglePositionBooking(ps[i]);
  }
}
