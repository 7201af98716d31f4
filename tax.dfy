/** Capital-gains estimate for one holding (stock_bot.py, estimate_tax). */
module Tax {
  import opened Common

  const ShortTermRate: real := 0.20
  const LongTermRate: real := 0.125
  /** Long-term gains up to this amount are exempt. */
  const LongTermExemption: real := 125000.0
  /** A holding kept at least this many days is long-term. */
  const LongTermDays: int := 365

  datatype TaxEstimate =
    | NoTax                  // the holding is not in profit
    | ShortTerm(amount: real)
    | LongTerm(amount: real)
    | DateError              // the buy date could not be parsed

  /** Amount owed under an estimate; zero when there is none. */
  function Owed(t: TaxEstimate): real
  {
    match t
    case ShortTerm(a) => a
    case LongTerm(a) => a
    case _ => 0.0
  }

  /** The estimate for a profit/loss `pl` on a holding bought `heldDays` days
      ago (`None` when the buy date does not parse). A loss or a zero result
      is decided before the date is looked at. */
  function EstimateTax(heldDays: Option<int>, pl: real): (t: TaxEstimate)
    ensures t == NoTax <==> pl <= 0.0
    ensures t == DateError <==> pl > 0.0 && heldDays == None
    ensures t.ShortTerm? <==> pl > 0.0 && heldDays.Some? && heldDays.value < LongTermDays
    ensures t.LongTerm? <==> pl > 0.0 && heldDays.Some? && heldDays.value >= LongTermDays
    ensures 0.0 <= Owed(t) < pl || t == NoTax || t == DateError
    ensures t.ShortTerm? ==> Owed(t) > 0.0
    ensures t.LongTerm? ==> (Owed(t) == 0.0 <==> pl <= LongTermExemption)
  {
    if pl <= 0.0 then NoTax
    else match heldDays
      case None => DateError
      case Some(days) =>
        if days < LongTermDays then ShortTerm(pl * ShortTermRate)
        else
          var taxable := if pl - LongTermExemption > 0.0 then pl - LongTermExemption else 0.0;
          LongTerm(taxable * LongTermRate)
  }

  /** The schedule in amounts: 20% of the whole profit when
      short-term, 12.5% of the profit above the exemption when long-term. */
  lemma TaxSchedule(days: int, pl: real)
    requires pl > 0.0
    ensures days < LongTermDays ==> EstimateTax(Some(days), pl) == ShortTerm(0.20 * pl)
    ensures days >= LongTermDays && pl <= LongTermExemption ==> EstimateTax(Some(days), pl) == LongTerm(0.0)
    ensures days >= LongTermDays && pl > LongTermExemption ==>
              EstimateTax(Some(days), pl) == LongTerm(0.125 * (pl - 125000.0))
  {
  }

  /** Holding past a year never raises the estimate: for the same profit the
      long-term amount is strictly below the short-term one. */
  lemma LongTermBelowShortTerm(shortDays: int, longDays: int, pl: real)
    requires pl > 0.0 && shortDays < LongTermDays <= longDays
    ensures Owed(EstimateTax(Some(longDays), pl)) < Owed(EstimateTax(Some(shortDays), pl))
  {
  }

  /** A larger profit never gives a smaller estimate. */
  lemma TaxMonotone(days: int, pl1: real, pl2: real)
    requires pl1 <= pl2
    ensures Owed(EstimateTax(Some(days), pl1)) <= Owed(EstimateTax(Some(days), pl2))
  {
  }

  /** The profit can be read back from a nonzero estimate and the holding
      period: the estimate loses no information above the exemption. */
  lemma ProfitFromEstimate(days: int, pl: real)
    requires EstimateTax(Some(days), pl).ShortTerm? || Owed(EstimateTax(Some(days), pl)) > 0.0
    ensures days < LongTermDays ==> pl == Owed(EstimateTax(Some(days), pl)) / ShortTermRate
    ensures days >= LongTermDays ==> pl == Owed(EstimateTax(Some(days), pl)) / LongTermRate + LongTermExemption
  {
  }
}
