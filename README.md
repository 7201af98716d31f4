# stock_bot advisory rules in Dafny

This project models the advisory core of `stock_bot.py`, a scheduled job
that prices each holder's portfolio and sends the results out. Each run
evaluates every row of a holder's holdings table. It computes the profit or
loss, a capital-gains estimate, averaging-down scenarios, a Graham-number
valuation, a 14-period RSI signal and a one-row profit-booking check. The
totals, a hedging suggestion, a gold/stock rebalancing check, a table-wide
profit-booking list and a market-sentiment reading come from the whole
results table and from the NIFTY 50 index.

The script fetches its numbers from a market-data provider and returns Tamil
text. In the model those numbers are parameters, and every outcome is a
datatype variant. Prices, values and percentages are exact `real`s.
Quantities are `nat`, holding periods `int`.

Modules, one per rule, in dependency order:

- `Common` (common.dfy): `Option`, `Sum`, a sign helper.
- `Tax` (tax.dfy): `estimate_tax`.
- `Averaging` (averaging.dfy): `get_averaging_advice`. The loop over the
  50% and 100% tiers is a method proved against the function `AveragingTiers`.
- `Rsi` (rsi.dfy): the pandas RSI (`diff`, `where(..., 0)`, `rolling(14).mean()`,
  last value) and `get_rsi_advice`.
- `Valuation` (valuation.dfy): `get_intrinsic_value_advice`.
- `Market` (market.dfy): `get_market_sentiment_advice` and `get_hedging_advice`.
- `Booking` (booking.dfy): `get_profit_booking_advice`. The row loop is a
  method proved against the function `BookingOf`.
- `Holdings` (holdings.dfy): the main loop over one holder's rows, proved
  against `EvaluateAll`, and the totals.
- `Rebalancing` (rebalancing.dfy): `get_rebalancing_advice`. The results table
  is a class, because the advisor adds a market-value column to it in place.

Behaviour of the code that the model keeps on purpose:

- RSI. The first change of the series is missing, and `where(delta > 0, 0)`
  turns it into 0. With exactly 14 closes, the window therefore averages 13
  real changes and one zero (`Rsi.ShortSeriesPadsWithFirstClose`). A window
  with gains and no losses reads 100. A window with neither is not a number.
  It is the variant `Flat`, and it falls through to neutral.
- Sentiment. The index RSI has no length check. Fewer than 14 closes give
  no number, so the reading is calm. With no closes at all, indexing the
  empty series raises, and the outcome is `Unavailable`. That holds even
  after a sharp daily fall, because the exception comes before the shock test.
- Intrinsic value. Earnings are the trailing figure, or the forward figure
  when the trailing one is missing or zero (Python `or`). The same goes for
  book value and price-to-book. A negative book value passes the
  truthiness test, and its square root is complex. The model reports no
  valuation for it, so in the model a valuation exists exactly when
  earnings and book value are both positive (see "## Left out").
- Profit booking. Iterating a mixed-type table yields Python floats, so a
  zero cost basis raises `ZeroDivisionError`. The handler then replaces the
  whole listing with an error message. The model has the variant
  `ZeroCostBasis` for this, and it does not keep the rows listed before the error.
- Averaging. 5 shares at 16.10 with the price at 13.50 trigger advice. The
  50% tier buys 2 shares at a new average of 107.5 / 7, about 15.36
  (`Averaging.FiveSharesAtSixteenTen`).

## Model

| member | source | states |
|---|---|---|
| Tax.EstimateTax | stock_bot.py:274-285 | no tax exactly when P/L <= 0, which is decided before the date; a date error only for a profit with an unparseable date; short-term below 365 days and long-term from 365; an estimate is never negative and always below the profit; long-term tax is zero exactly up to the 125000 exemption |
| Tax.TaxSchedule | stock_bot.py:279-283 | short-term tax is 20% of the profit; long-term tax is 12.5% of the profit above 125000, and 0 up to it |
| Tax.LongTermBelowShortTerm | stock_bot.py:279-283 | for the same profit, the long-term estimate is strictly below the short-term one |
| Tax.TaxMonotone | stock_bot.py:275-283 | for a fixed holding period, a larger P/L never gives a smaller estimate |
| Tax.ProfitFromEstimate | stock_bot.py:279-283 | the profit can be recovered from any nonzero estimate and the holding period |
| Averaging.ExtraQty | stock_bot.py:292 | the extra quantity is at least 1, and it is 1 or the truncated percentage of the holding |
| Averaging.BlendedBetween | stock_bot.py:293-294 | the blended average after buying below the average lies at or above the live price and strictly below the old average; strictly above the live price when shares were held; the reduction is extra * (avg - live) / (qty + extra) |
| Averaging.AveragingAdvice | stock_bot.py:287-297 | the loop yields AveragingTiers: nothing when live >= 0.98 * avg, otherwise exactly two tiers, 50 then 100, each buying at least one share; for a non-negative average, live <= new average < average and the reduction is positive; with shares held, live < new average |
| Averaging.FullTierIsMidpoint | stock_bot.py:291-293 | with shares held, the 100% tier's new average is the midpoint of the average and the live price |
| Averaging.LargerTierReducesMore | stock_bot.py:291-294 | the 100% tier reduces the average at least as much as the 50% tier, and strictly more from two shares held |
| Averaging.FiveSharesAtSixteenTen | stock_bot.py:289-294 | 5 shares at 16.10 with the price at 13.50 trigger advice; the 50% tier buys 2 shares at a new average of 107.5 / 7 |
| Rsi.GainSum | stock_bot.py:115 | the summed gains of the window are never negative |
| Rsi.LossSum | stock_bot.py:116 | the summed losses of the window are never negative |
| Rsi.RsiOf | stock_bot.py:112-119 | insufficient exactly below 14 closes; a computed RSI lies in [0, 100] and is 100 exactly when the window has no losses; not a number exactly when the window has neither gains nor losses |
| Rsi.RsiAdvice | stock_bot.py:112-128 | too little data exactly below 14 closes; overbought iff RSI >= 70, oversold iff RSI <= 30 (inclusive); otherwise neutral, carrying the reading itself, which includes a window that is not a number |
| Rsi.GainsMinusLosses | stock_bot.py:114-116 | over any run of changes, total gains minus total losses is the net change |
| Rsi.DeltasTelescope | stock_bot.py:114 | the changes from position k onward add up to the move from close k-1 to the last close |
| Rsi.WindowNetMove | stock_bot.py:114-116 | window gains minus window losses equal the last close minus the window's base close, which is the first close when there are exactly 14 closes and the 15th from the end otherwise |
| Rsi.RsiIsUpShare | stock_bot.py:118-119 | 100 - 100/(1 + gain/loss) equals 100 * gains / (gains + losses) whenever the window moved, including the no-loss case that reads 100 |
| Rsi.RsiAboveFiftyIffRising | stock_bot.py:114-119 | the RSI is above 50 exactly when the last close is above the window's base close, and below 50 exactly when it is below |
| Rsi.ShortSeriesPadsWithFirstClose | stock_bot.py:114-116 | with exactly 14 closes the missing first change counts as zero: the RSI equals that of the series with its first close repeated in front |
| Rsi.OnlyLastFifteenCloses | stock_bot.py:115-119 | beyond 14 closes, only the last 15 decide the RSI |
| Rsi.SteadyRiseIsOverbought | stock_bot.py:115-124 | a window of strictly rising closes reads 100 and is overbought |
| Rsi.SteadyFallIsOversold | stock_bot.py:115-126 | a window of strictly falling closes reads 0 and is oversold |
| Valuation.OrElse | stock_bot.py:149-150 | Python `a or b`: the first value when it is present and nonzero, otherwise the second as it is |
| Valuation.IntrinsicValueAdvice | stock_bot.py:145-164 | data unavailable exactly when earnings or book value is not positive; otherwise the fair value is the Graham number, which is positive; a discount exactly when the price is below it, with a percentage in (0, 100] for a non-negative price; otherwise a non-negative premium |
| Valuation.DiscountIffBelowGrahamSquare | stock_bot.py:153-156 | for a non-negative price, a discount exactly when price squared < 22.5 * EPS * book value; no square root needed |
| Valuation.PriceFromSignal | stock_bot.py:156-161 | the price is recovered from the fair value and the reported discount or premium percentage |
| Valuation.EpsFallback | stock_bot.py:149-152 | nonzero trailing earnings are used; zero trailing earnings with no forward figure leave no valuation |
| Market.DailyChange | stock_bot.py:188-190 | 0 with no session today; otherwise the change that scales the first open to the last close, negative exactly when the session closed below its open |
| Market.MarketSentiment | stock_bot.py:183-213 | unavailable exactly when there are no index closes; otherwise distressed exactly when the daily change <= -1.5, whatever the RSI; then extreme fear iff RSI < 30 and extreme greed iff RSI > 70, both strict; calm otherwise, carrying the RSI reading, including one that is not a number |
| Market.ShockOverridesOscillator | stock_bot.py:202-203 | any daily change <= -1.5 gives distressed, with that change, for every close series |
| Market.ShockIffClosedBelowOpen | stock_bot.py:188-190 | the session is a shock exactly when the last close is at most 98.5% of the first open |
| Market.NoSessionNoShock | stock_bot.py:188-190 | with no session today the daily change is 0 and the market is never distressed |
| Market.SentimentStricterThanAdvice | stock_bot.py:205-210 | extreme fear implies the RSI advice is oversold, and extreme greed implies overbought; an RSI of exactly 30 or 70 is calm here but oversold or overbought in the RSI advice |
| Market.WeekChange | stock_bot.py:307-309 | the change that scales the first index close to the last, negative exactly when the index ended below where it started |
| Market.HedgingAdvice | stock_bot.py:299-321 | insufficient data exactly below 2 closes; a hedge exactly when the first-to-last change is strictly below -2%, sized at 15% of the total value; otherwise no hedge, carrying the first-to-last change, which is >= -2% |
| Market.HedgeIffIndexBelowNinetyEightPercent | stock_bot.py:307-312 | a hedge is advised exactly when the last close is strictly below 98% of the first |
| Market.HedgeIgnoresInteriorCloses | stock_bot.py:307-309 | only the first and last closes of the window decide the hedge |
| Booking.ProfitBookingAdvice | stock_bot.py:250-272 | the row-by-row walk returns exactly BookingOf of the table: it stops at the first zero cost basis with that row's error, and otherwise lists the qualifying rows in order |
| Booking.BookingProperties | stock_bot.py:250-272 | a zero-cost-basis error exactly when some row has zero invested value; "hold" exactly when every row is priced and below 20%; otherwise a nonempty list, all at 20% or more |
| Booking.FlaggedMembers | stock_bot.py:253-265 | a candidate is listed exactly when some row's P/L / (avg * qty) * 100 >= 20 (inclusive) |
| Booking.FlaggedKeepsOrder | stock_bot.py:253-265 | listing preserves input order: the listing of two tables in sequence is their listings in sequence |
| Booking.QualifiesIffFifthOfCost | stock_bot.py:255-260 | for a positive cost basis, a row qualifies exactly when its P/L is at least a fifth of the invested value |
| Booking.SinglePositionBooking | stock_bot.py:253-270 | on a one-row table: an error for a zero cost basis; otherwise a one-candidate listing if the row qualifies, else hold |
| Booking.SingleHoldingBookedIffUpTwentyPercent | stock_bot.py:550-554 | for one holding bought at a positive price, booking is advised exactly when live >= 1.2 * avg |
| Holdings.ProfitLoss | stock_bot.py:543 | P/L is market value minus cost; with shares held it is positive exactly when live > avg and negative exactly when live < avg |
| Holdings.EvaluateRow | stock_bot.py:537-560 | one quoted row is evaluated as Evaluate describes, with P/L exactly (live - avg) * qty at the quote's live price |
| Holdings.EvaluateHoldings | stock_bot.py:535-563 | the loop yields EvaluateAll: no more results than rows, each with exact P/L and priced at its ticker's quote |
| Holdings.ResultsComeFromFeed | stock_bot.py:539-543 | every result has a quoted ticker, its live price and exact P/L, and there are no more results than rows |
| Holdings.QuotedRows | stock_bot.py:539-541 | a row is kept exactly when it is in the table and its ticker has a quote, and no more rows are kept than given |
| Holdings.EvaluatesExactlyQuotedRows | stock_bot.py:539-541 | the results are exactly the rows whose ticker has a quote, evaluated one for one in order; rows without a quote are skipped |
| Holdings.TotalPLIsValueMinusCost | stock_bot.py:567-569 | total P/L over the results equals total market value minus total cost |
| Holdings.RowsOf | stock_bot.py:532 | a row is selected exactly when it is in the table and belongs to the holder, and each of the holder's rows is kept as many times as the table lists it |
| Holdings.RowsOfKeepsOrder | stock_bot.py:532 | selection keeps table order: the holder's rows of two tables in sequence are the two selections in sequence |
| Holdings.HolderSnapshot | stock_bot.py:531-569 | a holder is skipped exactly when none of their rows got a quote; otherwise the results are EvaluateAll of the holder's rows, the total value is the sum of qty * live over them and the total P/L the sum of their P/L, total P/L = total value - total cost, and the hedge is sized from the total value |
| Holdings.ResultsCarryOwnBooking | stock_bot.py:550-554 | each result carries the booking advice of its own one-row table |
| Holdings.TableBookingAgreesWithRows | stock_bot.py:253-265 | on the whole results table the filter lists exactly the holdings whose own one-row advice was to book profits |
| Rebalancing.IsGoldIffOccurs | stock_bot.py:220-221 | a ticker is gold exactly when "gold", ignoring letter case, occurs in it |
| Rebalancing.MarketValues | stock_bot.py:219 | the added column holds qty * live for each row, one entry per row |
| Rebalancing.BucketsPartitionTotal | stock_bot.py:220-222 | gold value plus stock value is the portfolio's total value |
| Rebalancing.RebalanceDecision | stock_bot.py:222-244 | nothing held exactly when the total is 0; otherwise the two percentages add to 100; sell stocks iff stock% > 55, checked first; sell gold iff stock% <= 55 and gold% > 55; the transfer is the overweight bucket minus half the total, and it has the total's sign; balanced leaves both at or below 55% |
| Rebalancing.SharesSumToHundred | stock_bot.py:226-227 | for a nonzero total, the gold and stock percentages add up to exactly 100 |
| Rebalancing.TransferIsExcessOverHalf | stock_bot.py:237-241 | total * ((pct - 50) / 100) is the bucket's value minus half the total |
| Rebalancing.TransferRestoresEvenSplit | stock_bot.py:237-242 | after the advised transfer, both buckets hold half the total |
| Rebalancing.BalancedIffWithinBand | stock_bot.py:237-244 | for a nonzero total, balanced exactly when 45 <= stock% <= 55 |
| Rebalancing.SixtyFortyMovesTenPercent | stock_bot.py:237-239 | a 60/40 split toward stocks advises selling stocks for 10% of the total |
| Rebalancing.EvenSplitIsBalanced | stock_bot.py:243-244 | an exact 50/50 split is balanced |
| Rebalancing.ResultTable.RebalancingAdvice | stock_bot.py:215-246 | the table gains the market-value column; the advice is RebalanceDecision of the gold and stock bucket sums |

## Left out

- Valuation.IntrinsicValueAdvice: positive earnings with a negative book value give a complex Graham number in the script, which then (under numpy's ordering of complex values) most likely reports a premium in complex numbers; the model returns `DataUnavailable` for that case.

- Market-data fetches (yfinance): closes, sessions, the live price and the fundamentals are parameters. A ticker missing from the `Feed` map stands for an empty one-day history, and its row is skipped.
- A failed fetch inside the RSI, valuation, sentiment or hedging advisors: the script's catch-all handlers turn these into fallback text. Only the defined conditions are variants: short history, missing fundamentals, a zero total, an empty index series and a zero cost basis.
- The square root in the Graham number: Dafny has no real square root, so the caller supplies it (`IsGrahamRoot`). The discount/premium decision is also shown to need only squares.
- Market.DailyChange and Market.HedgingAdvice: these require a positive first open or first close. A zero index level would give an infinite or not-a-number percentage under numpy, and that is not modelled.
- Rebalancing.IsGold: case is folded for ASCII letters only. Non-ASCII case folding is not modelled.
- Averaging.AveragingAdvice: the new average is only guaranteed to lie below the old one for a non-negative average price. With a negative average the 2% trigger can fire for a live price above the average. Prices are never negative.
- Rounding (`round(..., 2)` of the live price and P/L, `round(..., 1)` of tax and RSI) and float arithmetic: values are exact reals.
- Formatting and delivery: Tamil message text, WhatsApp sending, the voice report, charts, the PDF and e-mail.
- The holiday CSV check and greetings, SQLite persistence, and the AI news and advice calls to Gemini.
- `get_market_breadth`: it only feeds the message text.
- The outer loop over the two fixed holders and the choice of which hour sends e-mail. The results, totals and hedge of one holder's run (stock_bot.py:531-569) are `Holdings.HolderSnapshot`; the table-level advisors are separate members.
- The buy-date parse and the clock: `heldDays` is an input, and `None` means the date does not parse.
