/** Averaging-down advice for one holding (stock_bot.py, get_averaging_advice). */
module Averaging {

  /** Advice is given only when the live price is below this share of the
      average price (a 2% fall). */
  const TriggerRatio: real := 0.98
  /** Extra purchase sizes tried, as percentages of the current quantity,
      in the order they are reported. */
  const TierPercents: seq<nat> := [50, 100]

  /** One purchase scenario: buy `extraQty` more at the live price. */
  datatype Tier = Tier(percent: nat, extraQty: nat, newAvg: real, reduction: real)

  /** Shares to buy for a tier: the truncated percentage of the holding,
      but never fewer than one. */
  function ExtraQty(qty: nat, percent: nat): (e: nat)
    ensures e >= 1
    ensures e >= qty * percent / 100
    ensures e == 1 || e == qty * percent / 100
  {
    var share := qty * percent / 100;
    if share < 1 then 1 else share
  }

  /** Average price after buying `extra` more shares at `live`. */
  function Blended(qty: nat, avg: real, extra: nat, live: real): real
    requires extra >= 1
  {
    (qty as real * avg + extra as real * live) / (qty + extra) as real
  }

  function TierAt(qty: nat, avg: real, live: real, percent: nat): Tier
  {
    var e := ExtraQty(qty, percent);
    var n := Blended(qty, avg, e, live);
    Tier(percent, e, n, avg - n)
  }

  predicate Triggered(avg: real, live: real)
  {
    live < avg * TriggerRatio
  }

  /** The advice the method below produces, as a value. */
  function AveragingTiers(qty: nat, avg: real, live: real): seq<Tier>
  {
    if Triggered(avg, live) then [TierAt(qty, avg, live, 50), TierAt(qty, avg, live, 100)] else []
  }

  /** A blended average lies between the two prices it blends: strictly
      below the old average when something cheaper is bought, and strictly
      above the purchase price when shares were already held. */
  lemma {:induction false} BlendedBetween(qty: nat, avg: real, extra: nat, live: real)
    requires extra >= 1 && live < avg
    ensures live <= Blended(qty, avg, extra, live) < avg
    ensures qty >= 1 ==> live < Blended(qty, avg, extra, live)
    ensures avg - Blended(qty, avg, extra, live) == extra as real * (avg - live) / (qty + extra) as real
  {
    var q, e := qty as real, extra as real;
    var n := Blended(qty, avg, extra, live);
    assert n * (q + e) == q * avg + e * live;
    assert (avg - n) * (q + e) == e * (avg - live);
    assert n - live == q * (avg - live) / (q + e) by {
      assert (n - live) * (q + e) == q * (avg - live);
    }
  }

  /** What the advice promises, stated on its value. */
  lemma TiersProperties(qty: nat, avg: real, live: real)
    ensures var tiers := AveragingTiers(qty, avg, live);
            (tiers == [] <==> live >= avg * TriggerRatio) &&
            (tiers != [] ==> |tiers| == 2 && tiers[0].percent == 50 && tiers[1].percent == 100) &&
            (forall t :: t in tiers ==> t.extraQty >= 1) &&
            (avg >= 0.0 ==> forall t :: t in tiers ==> live <= t.newAvg < avg && t.reduction > 0.0) &&
            (avg >= 0.0 && qty >= 1 ==> forall t :: t in tiers ==> live < t.newAvg)
  {
    if Triggered(avg, live) && avg >= 0.0 {
      BlendedBetween(qty, avg, ExtraQty(qty, 50), live);
      BlendedBetween(qty, avg, ExtraQty(qty, 100), live);
    }
  }

  /** Loops over the tier percentages and appends one scenario per tier. */
  method AveragingAdvice(qty: nat, avg: real, live: real) returns (tiers: seq<Tier>)
    ensures tiers == AveragingTiers(qty, avg, live)
    ensures tiers == [] <==> live >= avg * TriggerRatio
    ensures tiers != [] ==> |tiers| == 2 && tiers[0].percent == 50 && tiers[1].percent == 100
    ensures forall t :: t in tiers ==> t.extraQty >= 1
    ensures avg >= 0.0 ==> forall t :: t in tiers ==> live <= t.newAvg < avg && t.reduction > 0.0
    ensures avg >= 0.0 && qty >= 1 ==> forall t :: t in tiers ==> live < t.newAvg
  {
    tiers := [];
    if live < avg * TriggerRatio {
      for i := 0 to |TierPercents|
        invariant |tiers| == i
        invariant forall k :: 0 <= k < i ==> tiers[k] == TierAt(qty, avg, live, TierPercents[k])
      {
        var percent := TierPercents[i];
        var extra := ExtraQty(qty, percent);
        var newAvg := (qty as real * avg + extra as real * live) / (qty + extra) as real;
        tiers := tiers + [Tier(percent, extra, newAvg, avg - newAvg)];
      }
    }
    TiersProperties(qty, avg, live);
  }

  /** Buying as many shares again as are held lands exactly halfway between
      the old average and the live price. */
  lemma FullTierIsMidpoint(qty: nat, avg: real, live: real)
    requires qty >= 1 && Triggered(avg, live)
    ensures AveragingTiers(qty, avg, live)[1].newAvg == (avg + live) / 2.0
  {
    var q, m := qty as real, (avg + live) / 2.0;
    assert ExtraQty(qty, 100) == qty;
    var n := Blended(qty, avg, qty, live);
    assert n * (q + q) == q * avg + q * live;
    assert (n - m) * (q + q) == 0.0;
  }

  /** The larger tier never reduces the average less than the smaller one,
      and reduces it strictly more once two or more shares are held. */
  lemma {:induction false} LargerTierReducesMore(qty: nat, avg: real, live: real)
    requires Triggered(avg, live) && avg >= 0.0
    ensures AveragingTiers(qty, avg, live)[0].reduction <= AveragingTiers(qty, avg, live)[1].reduction
    ensures qty >= 2 ==> AveragingTiers(qty, avg, live)[0].reduction < AveragingTiers(qty, avg, live)[1].reduction
  {
    var e1, e2 := ExtraQty(qty, 50), ExtraQty(qty, 100);
    assert e2 == if qty < 1 then 1 else qty;
    assert e1 <= e2;
    assert qty >= 2 ==> e1 < e2;
    BlendedBetween(qty, avg, e1, live);
    BlendedBetween(qty, avg, e2, live);
    ReductionGrowsWithExtra(qty, avg - live, e1, e2);
  }

  /** e * g / (q + e) grows with e when the gap g is positive. */
  lemma ReductionGrowsWithExtra(qty: nat, gap: real, e1: nat, e2: nat)
    requires gap > 0.0 && 1 <= e1 <= e2
    ensures e1 as real * gap / (qty + e1) as real <= e2 as real * gap / (qty + e2) as real
    ensures qty >= 1 && e1 < e2 ==> e1 as real * gap / (qty + e1) as real < e2 as real * gap / (qty + e2) as real
  {
    var q, a, b := qty as real, e1 as real, e2 as real;
    var r1, r2 := a * gap / (q + a), b * gap / (q + b);
    assert r1 * (q + a) == a * gap;
    assert r2 * (q + b) == b * gap;
    assert (r2 - r1) * (q + a) * (q + b) == q * gap * (b - a);
  }

  /** 5 shares averaged at 16.10 with the price at 13.50 trigger advice;
      the 50% tier buys 2 shares at a new average of 107.5 / 7. */
  lemma FiveSharesAtSixteenTen()
    ensures AveragingTiers(5, 16.10, 13.50)[0] == Tier(50, 2, 107.5 / 7.0, 16.10 - 107.5 / 7.0)
  {
    assert ExtraQty(5, 50) == 2;
  }
}
