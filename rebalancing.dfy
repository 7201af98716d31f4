/** Gold/stock rebalancing advice over a holder's results table
    (stock_bot.py, get_rebalancing_advice). */
module Rebalancing {
  import opened Common
  import opened Holdings

  const TargetPct: real := 50.0
  /** Percentage points a bucket may exceed the target before advice is given. */
  const Band: real := 5.0

  /** ASCII upper-casing, for the case-insensitive match. */
  function Upper(c: char): char
  {
    if 'a' <= c <= 'z' then (c as int - 32) as char else c
  }

  /** The four characters at position i read "GOLD" in any letter case. */
  predicate GoldAt(t: string, i: nat)
    requires i + 4 <= |t|
  {
    Upper(t[i]) == 'G' && Upper(t[i + 1]) == 'O' && Upper(t[i + 2]) == 'L' && Upper(t[i + 3]) == 'D'
  }

  /** A ticker is in the gold bucket when it contains "gold", ignoring case. */
  predicate IsGold(t: string)
    decreases |t|
  {
    |t| >= 4 && (GoldAt(t, 0) || IsGold(t[1..]))
  }

  /** The scan finds "gold" exactly when it occurs at some position. */
  lemma {:induction false} IsGoldIffOccurs(t: string)
    ensures IsGold(t) <==> exists i :: 0 <= i && i + 4 <= |t| && GoldAt(t, i)
    decreases |t|
  {
    if |t| >= 4 {
      IsGoldIffOccurs(t[1..]);
      if IsGold(t[1..]) {
        var i :| 0 <= i && i + 4 <= |t[1..]| && GoldAt(t[1..], i);
        assert GoldAt(t, i + 1);
      }
      if exists i :: 0 <= i && i + 4 <= |t| && GoldAt(t, i) {
        var i :| 0 <= i && i + 4 <= |t| && GoldAt(t, i);
        if i > 0 { assert GoldAt(t[1..], i - 1); }
      }
    }
  }

  /** Market value of each result, the column the advisor adds to the table. */
  function MarketValues(rows: seq<Evaluation>): (col: seq<real>)
    ensures |col| == |rows|
    ensures forall i :: 0 <= i < |rows| ==> col[i] == MarketValue(rows[i])
  {
    seq(|rows|, i requires 0 <= i < |rows| => MarketValue(rows[i]))
  }

  /** Sum of the column over the rows whose ticker is (or is not) gold. */
  function BucketSum(rows: seq<Evaluation>, col: seq<real>, gold: bool): real
    requires |col| == |rows|
  {
    if |rows| == 0 then 0.0
    else (if IsGold(rows[0].ticker) == gold then col[0] else 0.0) + BucketSum(rows[1..], col[1..], gold)
  }

  function GoldValue(rows: seq<Evaluation>): real { BucketSum(rows, MarketValues(rows), true) }
  function StockValue(rows: seq<Evaluation>): real { BucketSum(rows, MarketValues(rows), false) }

  /** The two buckets split the portfolio: together they are its total value. */
  lemma {:induction false} BucketsPartitionTotal(rows: seq<Evaluation>)
    ensures GoldValue(rows) + StockValue(rows) == TotalValue(rows)
  {
    if |rows| > 0 {
      assert MarketValues(rows)[1..] == MarketValues(rows[1..]);
      BucketsPartitionTotal(rows[1..]);
    }
  }

  datatype Rebalance =
    | NothingHeld                                                // total value is zero
    | Balanced(goldPct: real, stockPct: real)
    | SellStocksBuyGold(goldPct: real, stockPct: real, transfer: real)
    | SellGoldBuyStocks(goldPct: real, stockPct: real, transfer: real)

  /** Shares of the two buckets against the 50/50 target; stocks are
      checked first, and the transfer is the value that brings the
      overweight bucket back to half. */
  function RebalanceDecision(gold: real, stock: real): (r: Rebalance)
    ensures r == NothingHeld <==> gold + stock == 0.0
    ensures r != NothingHeld ==>
              r.goldPct + r.stockPct == 100.0 &&
              r.goldPct == gold / (gold + stock) * 100.0 && r.stockPct == stock / (gold + stock) * 100.0
    ensures r.SellStocksBuyGold? <==> r != NothingHeld && r.stockPct > TargetPct + Band
    ensures r.SellGoldBuyStocks? <==> r != NothingHeld && r.stockPct <= TargetPct + Band && r.goldPct > TargetPct + Band
    ensures r.SellStocksBuyGold? ==> r.transfer == stock - (gold + stock) / 2.0 && (r.transfer > 0.0 <==> gold + stock > 0.0)
    ensures r.SellGoldBuyStocks? ==> r.transfer == gold - (gold + stock) / 2.0 && (r.transfer > 0.0 <==> gold + stock > 0.0)
    ensures r.Balanced? ==> r.goldPct <= TargetPct + Band && r.stockPct <= TargetPct + Band
  {
    var total := gold + stock;
    if total == 0.0 then NothingHeld
    else
      var goldPct := gold / total * 100.0;
      var stockPct := stock / total * 100.0;
      SharesSumToHundred(gold, stock);
      if stockPct > TargetPct + Band then
        var transfer := total * ((stockPct - TargetPct) / 100.0);
        TransferIsExcessOverHalf(stock, total);
        SignOfProduct(total, (stockPct - TargetPct) / 100.0, transfer);
        SellStocksBuyGold(goldPct, stockPct, transfer)
      else if goldPct > TargetPct + Band then
        var transfer := total * ((goldPct - TargetPct) / 100.0);
        TransferIsExcessOverHalf(gold, total);
        SignOfProduct(total, (goldPct - TargetPct) / 100.0, transfer);
        SellGoldBuyStocks(goldPct, stockPct, transfer)
      else Balanced(goldPct, stockPct)
  }

  /** The two percentages of a nonzero total add up to 100. */
  lemma SharesSumToHundred(gold: real, stock: real)
    requires gold + stock != 0.0
    ensures gold / (gold + stock) * 100.0 + stock / (gold + stock) * 100.0 == 100.0
  {
    var total := gold + stock;
    var g := gold / total;
    var s := stock / total;
    assert g * total == gold;
    assert s * total == stock;
    assert (g + s) * total == g * total + s * total;
    assert (g + s - 1.0) * total == 0.0;
  }

  /** The value above the target share is the part minus half the total. */
  lemma TransferIsExcessOverHalf(part: real, total: real)
    requires total != 0.0
    ensures total * ((part / total * 100.0 - TargetPct) / 100.0) == part - total / 2.0
  {
    var q := part / total;
    assert q * total == part;
    assert (q * 100.0 - TargetPct) / 100.0 == q - 0.5;
    assert total * (q - 0.5) == q * total - total / 2.0;
  }

  /** Moving the advised transfer leaves both buckets at half the total. */
  lemma TransferRestoresEvenSplit(gold: real, stock: real)
    ensures var r := RebalanceDecision(gold, stock);
            (r.SellStocksBuyGold? ==> stock - r.transfer == (gold + stock) / 2.0 == gold + r.transfer) &&
            (r.SellGoldBuyStocks? ==> gold - r.transfer == (gold + stock) / 2.0 == stock + r.transfer)
  {
  }

  /** No advice is given exactly when the stock share is within five
      points of 50%, on either side. */
  lemma BalancedIffWithinBand(gold: real, stock: real)
    requires gold + stock != 0.0
    ensures RebalanceDecision(gold, stock).Balanced? <==>
              TargetPct - Band <= RebalanceDecision(gold, stock).stockPct <= TargetPct + Band
  {
  }

  /** A 60/40 split toward stocks advises moving a tenth of the total. */
  lemma SixtyFortyMovesTenPercent(gold: real, stock: real)
    requires gold > 0.0 && stock == 1.5 * gold
    ensures RebalanceDecision(gold, stock) == SellStocksBuyGold(40.0, 60.0, 0.1 * (gold + stock))
  {
    var total := gold + stock;
    QuotientFromProduct(gold, total, 0.4);
    QuotientFromProduct(stock, total, 0.6);
  }

  /** An even split is balanced. */
  lemma EvenSplitIsBalanced(value: real)
    requires value != 0.0
    ensures RebalanceDecision(value, value) == Balanced(50.0, 50.0)
  {
    QuotientFromProduct(value, value + value, 0.5);
  }

  /** The holder's results table. The advisor adds a market-value column
      to it in place; the rows themselves are not changed. */
  class ResultTable {
    const rows: seq<Evaluation>
    var marketValue: seq<real>   // empty until the advisor has run

    constructor (rows: seq<Evaluation>)
      ensures this.rows == rows && marketValue == []
    {
      this.rows := rows;
      marketValue := [];
    }

    /** Adds the market-value column, sums it by bucket, and decides. */
    method RebalancingAdvice() returns (advice: Rebalance)
      modifies this
      ensures marketValue == MarketValues(rows)
      ensures advice == RebalanceDecision(GoldValue(rows), StockValue(rows))
    {
      marketValue := seq(|rows|, i requires 0 <= i < |rows| => rows[i].qty as real * rows[i].live);
      assert forall i :: 0 <= i < |rows| ==> marketValue[i] == MarketValues(rows)[i];
      var gold := BucketSum(rows, marketValue, true);
      var stock := BucketSum(rows, marketValue, false);
      advice := RebalanceDecision(gold, stock);
    }
  }
}
