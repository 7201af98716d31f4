/** Signals read from the broad-market index rather than from a holding
    (stock_bot.py, get_market_sentiment_advice and get_hedging_advice). */
module Market {
  import opened Rsi

  /** One session of the index: opening and closing level. */
  datatype Bar = Bar(open: real, close: real)

  /** The index levels the signals read are positive. */
  predicate OpensPositive(day: seq<Bar>) { |day| > 0 ==> day[0].open > 0.0 }

  /** Today's percentage move: last close against the first open; 0 when
      the provider returned no session for today. */
  function DailyChange(day: seq<Bar>): (c: real)
    requires OpensPositive(day)
    ensures |day| == 0 ==> c == 0.0
    ensures |day| > 0 ==> day[|day| - 1].close == day[0].open * (1.0 + c / 100.0)
    ensures |day| > 0 ==> (c < 0.0 <==> day[|day| - 1].close < day[0].open)
  {
    if |day| == 0 then 0.0 else PercentMove(day[0].open, day[|day| - 1].close)
  }

  /** The percentage move from a positive level to another; the new level
      is the old one scaled by (1 + move / 100). */
  function PercentMove(from: real, to: real): (m: real)
    requires from > 0.0
    ensures to == from * (1.0 + m / 100.0)
    ensures m < 0.0 <==> to < from
  {
    var m := (to - from) / from * 100.0;
    assert m / 100.0 * from == to - from;
    assert from * (1.0 + m / 100.0) == from + m / 100.0 * from;
    m
  }

  /** A fall of this many percent or more in one session is a shock. */
  const ShockLevel: real := -1.5
  const FearLevel: real := 30.0
  const GreedLevel: real := 70.0

  datatype Sentiment =
    | Distressed(dailyChange: real)  // a one-day shock, whatever the oscillator says
    | ExtremeFear
    | ExtremeGreed
    | Calm(reading: Reading)
    | Unavailable                    // no closes for the oscillator: the script's indexing fails

  /** The combined rule: the daily shock is checked first and overrides the
      oscillator; only then is the index's RSI compared, with strict bounds.
      The oscillator here is not guarded by a length check, so a short or
      flat series is not a number and falls through to calm. */
  function MarketSentiment(day: seq<Bar>, closes: seq<real>): (s: Sentiment)
    requires OpensPositive(day)
    ensures s == Unavailable <==> |closes| == 0
    ensures s.Distressed? <==> |closes| > 0 && DailyChange(day) <= ShockLevel
    ensures s.Distressed? ==> s.dailyChange == DailyChange(day)
    ensures s.Calm? ==> s.reading == RsiOf(closes)
    ensures s == ExtremeFear <==>
              |closes| > 0 && DailyChange(day) > ShockLevel && RsiOf(closes).Value? && RsiOf(closes).rsi < FearLevel
    ensures s == ExtremeGreed <==>
              |closes| > 0 && DailyChange(day) > ShockLevel && RsiOf(closes).Value? && RsiOf(closes).rsi > GreedLevel
  {
    if |closes| == 0 then Unavailable
    else
      var change := DailyChange(day);
      if change <= ShockLevel then Distressed(change)
      else match RsiOf(closes)
        case Value(v) =>
          if v < FearLevel then ExtremeFear
          else if v > GreedLevel then ExtremeGreed
          else Calm(Value(v))
        case other => Calm(other)
  }

  /** The override: a shock classifies as distressed even when the
      oscillator alone would read extreme greed. */
  lemma ShockOverridesOscillator(day: seq<Bar>, closes: seq<real>)
    requires OpensPositive(day) && |closes| > 0 && DailyChange(day) <= ShockLevel
    ensures MarketSentiment(day, closes) == Distressed(DailyChange(day))
  {
  }

  /** In price terms, a session is a shock exactly when it closes at or
      below 98.5% of its open. */
  lemma ShockIffClosedBelowOpen(day: seq<Bar>)
    requires |day| > 0 && OpensPositive(day)
    ensures DailyChange(day) <= ShockLevel <==> day[|day| - 1].close <= 0.985 * day[0].open
  {
    var o, c := day[0].open, day[|day| - 1].close;
    assert DailyChange(day) * o == (c - o) * 100.0;
  }

  /** Without a session for today there is no shock. */
  lemma NoSessionNoShock(closes: seq<real>)
    requires |closes| > 0
    ensures !MarketSentiment([], closes).Distressed?
  {
  }

  /** The sentiment bounds are strict where the per-ticker advice is
      inclusive: a reading of exactly 30 or 70 is calm here but oversold or
      overbought there; strictly beyond them the two agree. */
  lemma SentimentStricterThanAdvice(day: seq<Bar>, closes: seq<real>)
    requires OpensPositive(day) && DailyChange(day) > ShockLevel && RsiOf(closes).Value?
    ensures MarketSentiment(day, closes) == ExtremeFear ==> RsiAdvice(closes).Oversold?
    ensures MarketSentiment(day, closes) == ExtremeGreed ==> RsiAdvice(closes).Overbought?
    ensures RsiOf(closes).rsi == 30.0 ==> RsiAdvice(closes).Oversold? && MarketSentiment(day, closes).Calm?
    ensures RsiOf(closes).rsi == 70.0 ==> RsiAdvice(closes).Overbought? && MarketSentiment(day, closes).Calm?
  {
  }

  // ---------------------------------------------------------------------
  // Hedging

  const HedgeTrigger: real := -2.0
  const HedgeShare: real := 0.15

  datatype Hedge =
    | IndexDataShort
    | HedgeAdvised(changePct: real, amount: real)
    | NoHedgeNeeded(changePct: real)

  /** The five-day index move, first close to last. */
  function WeekChange(closes: seq<real>): (c: real)
    requires |closes| >= 2 && closes[0] > 0.0
    ensures closes[|closes| - 1] == closes[0] * (1.0 + c / 100.0)
    ensures c < 0.0 <==> closes[|closes| - 1] < closes[0]
  {
    PercentMove(closes[0], closes[|closes| - 1])
  }

  /** Hedge 15% of the portfolio when the index fell more than 2% over the
      window (strictly); fewer than two closes give no verdict. */
  function HedgingAdvice(totalValue: real, closes: seq<real>): (h: Hedge)
    requires |closes| >= 2 ==> closes[0] > 0.0
    ensures h == IndexDataShort <==> |closes| < 2
    ensures h.HedgeAdvised? <==> |closes| >= 2 && WeekChange(closes) < HedgeTrigger
    ensures h.HedgeAdvised? ==> h.amount == HedgeShare * totalValue && h.changePct == WeekChange(closes)
    ensures h.NoHedgeNeeded? ==> h.changePct == WeekChange(closes) && h.changePct >= HedgeTrigger
  {
    if |closes| < 2 then IndexDataShort
    else
      var change := WeekChange(closes);
      if change < HedgeTrigger then HedgeAdvised(change, totalValue * HedgeShare)
      else NoHedgeNeeded(change)
  }

  /** In price terms, a hedge is advised exactly when the last close is
      strictly below 98% of the first. */
  lemma HedgeIffIndexBelowNinetyEightPercent(totalValue: real, closes: seq<real>)
    requires |closes| >= 2 && closes[0] > 0.0
    ensures HedgingAdvice(totalValue, closes).HedgeAdvised? <==> closes[|closes| - 1] < 0.98 * closes[0]
  {
    var first, last := closes[0], closes[|closes| - 1];
    assert WeekChange(closes) * first == (last - first) * 100.0;
  }

  /** Only the first and last closes of the window matter. */
  lemma HedgeIgnoresInteriorCloses(totalValue: real, closes: seq<real>)
    requires |closes| >= 2 && closes[0] > 0.0
    ensures HedgingAdvice(totalValue, closes) == HedgingAdvice(totalValue, [closes[0], closes[|closes| - 1]])
  {
  }
}
