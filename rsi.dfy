/** The 14-period relative strength index as the script computes it with
    pandas (stock_bot.py, get_rsi_advice and the oscillator half of
    get_market_sentiment_advice). */
module Rsi {
  import opened Common

  /** Length of the rolling window. */
  const Window: nat := 14
  const OverboughtLevel: real := 70.0
  const OversoldLevel: real := 30.0

  function Gain(d: real): real { if d > 0.0 then d else 0.0 }
  function Loss(d: real): real { if d < 0.0 then -d else 0.0 }

  /** Day-over-day changes of the closes. The first close has no
      predecessor; its missing change is replaced by 0 before averaging, so
      it contributes neither gain nor loss. */
  function Deltas(closes: seq<real>): (ds: seq<real>)
    ensures |ds| == |closes|
  {
    seq(|closes|, j requires 0 <= j < |closes| => if j == 0 then 0.0 else closes[j] - closes[j - 1])
  }

  /** Total of the gains of a run of changes. */
  function GainSum(ds: seq<real>): (g: real)
    ensures g >= 0.0
  {
    if |ds| == 0 then 0.0 else Gain(ds[0]) + GainSum(ds[1..])
  }

  /** Total of the losses (as positive amounts) of a run of changes. */
  function LossSum(ds: seq<real>): (l: real)
    ensures l >= 0.0
  {
    if |ds| == 0 then 0.0 else Loss(ds[0]) + LossSum(ds[1..])
  }

  /** The changes in the last rolling window: the final 14 entries. */
  function LastWindow(closes: seq<real>): (w: seq<real>)
    requires |closes| >= Window
    ensures |w| == Window
  {
    Deltas(closes)[|closes| - Window..]
  }

  /** Index of the close the last window measures from: with exactly 14
      closes the window holds 13 real changes and the leading zero, so it
      spans from the first close; otherwise from the 15th close from the end. */
  function WindowBase(closes: seq<real>): (b: nat)
    requires |closes| >= Window
    ensures b < |closes|
  {
    if |closes| == Window then 0 else |closes| - Window - 1
  }

  /** Outcome of the oscillator on a close series. */
  datatype Reading =
    | Insufficient         // fewer closes than the window
    | Flat                 // no gain and no loss in the window: 0/0, not a number
    | Value(rsi: real)

  /** RSI = 100 - 100 / (1 + RS) with RS the ratio of the mean gain to the
      mean loss over the last window. A window with gains and no losses has
      an infinite RS and reads 100. */
  function RsiOf(closes: seq<real>): (r: Reading)
    ensures r == Insufficient <==> |closes| < Window
    ensures r.Value? ==> 0.0 <= r.rsi <= 100.0
    ensures r.Value? ==> (r.rsi == 100.0 <==> LossSum(LastWindow(closes)) == 0.0)
    ensures r == Flat <==>
              |closes| >= Window && GainSum(LastWindow(closes)) == 0.0 && LossSum(LastWindow(closes)) == 0.0
  {
    if |closes| < Window then Insufficient
    else
      var g := GainSum(LastWindow(closes)) / Window as real;
      var l := LossSum(LastWindow(closes)) / Window as real;
      if l > 0.0 then
        var rs := g / l;
        assert 1.0 + rs >= 1.0;
        assert 100.0 / (1.0 + rs) > 0.0;
        Value(100.0 - 100.0 / (1.0 + rs))
      else if g > 0.0 then Value(100.0)
      else Flat
  }

  /** Three-way reading of the oscillator for one ticker. */
  datatype RsiSignal =
    | NotEnoughData
    | Overbought(rsi: real)
    | Oversold(rsi: real)
    | Neutral(reading: Reading)

  /** Overbought at 70 or above, oversold at 30 or below (both inclusive);
      a flat window compares false both ways and is neutral. */
  function RsiAdvice(closes: seq<real>): (s: RsiSignal)
    ensures s == NotEnoughData <==> |closes| < Window
    ensures s.Overbought? <==> RsiOf(closes).Value? && RsiOf(closes).rsi >= OverboughtLevel
    ensures s.Oversold? <==> RsiOf(closes).Value? && RsiOf(closes).rsi <= OversoldLevel
    ensures s.Overbought? ==> OverboughtLevel <= s.rsi <= 100.0 && s.rsi == RsiOf(closes).rsi
    ensures s.Oversold? ==> 0.0 <= s.rsi <= OversoldLevel && s.rsi == RsiOf(closes).rsi
    ensures s.Neutral? ==> s.reading == RsiOf(closes)
    ensures s.Neutral? ==>
              s.reading == Flat || (s.reading.Value? && OversoldLevel < s.reading.rsi < OverboughtLevel)
  {
    match RsiOf(closes)
    case Insufficient => NotEnoughData
    case Flat => Neutral(Flat)
    case Value(v) =>
      if v >= OverboughtLevel then Overbought(v)
      else if v <= OversoldLevel then Oversold(v)
      else Neutral(Value(v))
  }

  // ---------------------------------------------------------------------
  // Properties of the oscillator

  /** A change is its gain minus its loss, so over a run the gains minus
      the losses are the net change. */
  lemma {:induction false} GainsMinusLosses(ds: seq<real>)
    ensures GainSum(ds) - LossSum(ds) == Sum(ds)
  {
    if |ds| > 0 {
      GainsMinusLosses(ds[1..]);
    }
  }

  /** The changes from position k on add up to the move from close k-1 to
      the last close. */
  lemma {:induction false} DeltasTelescope(closes: seq<real>, k: nat)
    requires 1 <= k <= |closes|
    ensures Sum(Deltas(closes)[k..]) == closes[|closes| - 1] - closes[k - 1]
    decreases |closes| - k
  {
    var ds := Deltas(closes);
    if k < |closes| {
      assert ds[k..][1..] == ds[k + 1..];
      DeltasTelescope(closes, k + 1);
    }
  }

  /** Over the last window, mean gain minus mean loss is the move from the
      window's base close to the last close, divided by 14. */
  lemma WindowNetMove(closes: seq<real>)
    requires |closes| >= Window
    ensures GainSum(LastWindow(closes)) - LossSum(LastWindow(closes))
            == closes[|closes| - 1] - closes[WindowBase(closes)]
  {
    var w := LastWindow(closes);
    GainsMinusLosses(w);
    if |closes| == Window {
      assert w[1..] == Deltas(closes)[1..];
      DeltasTelescope(closes, 1);
    } else {
      DeltasTelescope(closes, |closes| - Window);
    }
  }

  /** Reference form of the index: the share of the window's movement that
      was upward, in percent. */
  function UpShare(g: real, l: real): (p: real)
    requires g >= 0.0 && l >= 0.0 && g + l > 0.0
    ensures 0.0 <= p <= 100.0
  {
    100.0 * g / (g + l)
  }

  /** The pandas formula agrees with the up-share form whenever the window
      moved at all, including the no-loss case that reads 100. */
  lemma RsiIsUpShare(closes: seq<real>)
    requires |closes| >= Window
    ensures var g, l := GainSum(LastWindow(closes)), LossSum(LastWindow(closes));
            (RsiOf(closes) == Flat <==> g + l == 0.0) &&
            (g + l > 0.0 ==> RsiOf(closes) == Value(UpShare(g, l)))
  {
    var G, L := GainSum(LastWindow(closes)), LossSum(LastWindow(closes));
    var g, l := G / 14.0, L / 14.0;
    if L > 0.0 {
      var rs := g / l;
      assert rs * l == g;
      assert rs * L == G;
      var v := 100.0 - 100.0 / (1.0 + rs);
      assert (1.0 + rs) * L == L + G;
      assert 100.0 / (1.0 + rs) == 100.0 * L / (G + L);
      assert v == 100.0 * G / (G + L);
    } else if G > 0.0 {
      assert UpShare(G, L) == 100.0;
    }
  }

  /** The index is above 50 exactly when the last close is above the
      window's base close, and below 50 exactly when it is below. */
  lemma RsiAboveFiftyIffRising(closes: seq<real>)
    requires RsiOf(closes).Value?
    ensures RsiOf(closes).rsi > 50.0 <==> closes[|closes| - 1] > closes[WindowBase(closes)]
    ensures RsiOf(closes).rsi < 50.0 <==> closes[|closes| - 1] < closes[WindowBase(closes)]
  {
    var G, L := GainSum(LastWindow(closes)), LossSum(LastWindow(closes));
    RsiIsUpShare(closes);
    WindowNetMove(closes);
    assert G + L > 0.0;
    var v := UpShare(G, L);
    assert v == RsiOf(closes).rsi;
    assert v * (G + L) == 100.0 * G;
    SignOfProduct(v - 50.0, G + L, 50.0 * (G - L));
    assert v > 50.0 <==> G > L;
    assert v < 50.0 <==> G < L;
    assert G - L == closes[|closes| - 1] - closes[WindowBase(closes)];
  }

  /** With exactly 14 closes the missing first change counts as zero: the
      reading is the same as if the close before the first had equalled it. */
  lemma ShortSeriesPadsWithFirstClose(closes: seq<real>)
    requires |closes| == Window
    ensures RsiOf([closes[0]] + closes) == RsiOf(closes)
  {
    var padded := [closes[0]] + closes;
    assert LastWindow(padded) == LastWindow(closes) by {
      forall j | 0 <= j < Window
        ensures LastWindow(padded)[j] == LastWindow(closes)[j]
      {
        assert LastWindow(padded)[j] == Deltas(padded)[j + 1];
      }
    }
  }

  /** Only the last 15 closes matter once there are more than 14. */
  lemma OnlyLastFifteenCloses(closes: seq<real>)
    requires |closes| > Window
    ensures RsiOf(closes) == RsiOf(closes[|closes| - Window - 1..])
  {
    var n := |closes|;
    var tail := closes[n - Window - 1..];
    assert LastWindow(tail) == LastWindow(closes) by {
      forall j | 0 <= j < Window
        ensures LastWindow(tail)[j] == LastWindow(closes)[j]
      {
        assert LastWindow(tail)[j] == Deltas(tail)[j + 1];
        assert LastWindow(closes)[j] == Deltas(closes)[n - Window + j];
      }
    }
  }

  /** A run with no falls has no losses. */
  lemma {:induction false} NoFallsNoLoss(ds: seq<real>)
    requires forall j :: 0 <= j < |ds| ==> ds[j] >= 0.0
    ensures LossSum(ds) == 0.0
  {
    if |ds| > 0 {
      NoFallsNoLoss(ds[1..]);
    }
  }

  /** A run with no rises has no gains. */
  lemma {:induction false} NoRisesNoGain(ds: seq<real>)
    requires forall j :: 0 <= j < |ds| ==> ds[j] <= 0.0
    ensures GainSum(ds) == 0.0
  {
    if |ds| > 0 {
      NoRisesNoGain(ds[1..]);
    }
  }

  /** Fifteen or more closes rising day after day through the last window
      read 100 and are overbought. */
  lemma SteadyRiseIsOverbought(closes: seq<real>)
    requires |closes| > Window
    requires forall j :: |closes| - Window <= j < |closes| ==> closes[j - 1] < closes[j]
    ensures RsiAdvice(closes) == Overbought(100.0)
  {
    var w := LastWindow(closes);
    assert forall j :: 0 <= j < |w| ==> w[j] == closes[|closes| - Window + j] - closes[|closes| - Window + j - 1];
    NoFallsNoLoss(w);
    assert GainSum(w) >= Gain(w[0]) > 0.0;
  }

  /** Fifteen or more closes falling day after day through the last window
      read 0 and are oversold. */
  lemma SteadyFallIsOversold(closes: seq<real>)
    requires |closes| > Window
    requires forall j :: |closes| - Window <= j < |closes| ==> closes[j - 1] > closes[j]
    ensures RsiAdvice(closes) == Oversold(0.0)
  {
    var w := LastWindow(closes);
    assert forall j :: 0 <= j < |w| ==> w[j] == closes[|closes| - Window + j] - closes[|closes| - Window + j - 1];
    NoRisesNoGain(w);
    assert LossSum(w) >= Loss(w[0]) > 0.0;
  }
}
