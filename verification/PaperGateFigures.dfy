/**
 The figures of a replay, stated on its points, trades and fills alone: the drawdown,
 the gross profit and loss, the wins and losses, and the fees.
 */
module PaperGateFigures {
  import opened Decimals
  import opened PaperGate

  // ----- Drawdown -----

  /** Point i is the highest up to point j. */
  ghost predicate PeakFor(points: seq<real>, i: int, j: int) {
    0 <= i <= j < |points| && forall k :: 0 <= k <= j ==> points[k] <= points[i]
  }

  /** Point j lies dd percent below point i, or less. */
  ghost predicate FallsWithin(points: seq<real>, i: int, j: int, dd: real)
    requires 0 <= i < |points| && 0 <= j < |points|
  {
    (points[i] - points[j]) * 100.0 <= dd * points[i]
  }

  ghost predicate FallsBy(points: seq<real>, i: int, j: int, dd: real)
    requires 0 <= i < |points| && 0 <= j < |points|
  {
    (points[i] - points[j]) * 100.0 == dd * points[i]
  }

  lemma PercentOf(peak: real, equity: real, dd: real)
    requires peak > 0.0
    ensures DropPct(peak, equity) <= dd <==> (peak - equity) * 100.0 <= dd * peak
    ensures DropPct(peak, equity) == dd ==> (peak - equity) * 100.0 == dd * peak
  {
    var x := (peak - equity) / peak;
    DivideBack(peak - equity, peak);
    assert DropPct(peak, equity) * peak == x * peak * 100.0;
    Scale(DropPct(peak, equity), dd, peak);
  }

  lemma PeakIsPrefixMax(points: seq<real>, i: int, j: int)
    requires 0 <= i <= j < |points| && points[0] > 0.0
    requires PeakFor(points, i, j) || points[i] == PrefixMax(points, j)
    ensures PeakFor(points, i, j) && points[i] == PrefixMax(points, j) > 0.0
  {
  }

  lemma FallIsDrop(points: seq<real>, i: int, j: int, dd: real)
    requires 0 <= i <= j < |points| && points[0] > 0.0 && points[i] == PrefixMax(points, j) > 0.0
    ensures Drop(points, j) <= dd ==> FallsWithin(points, i, j, dd)
    ensures Drop(points, j) == dd ==> FallsBy(points, i, j, dd)
  {
    PercentOf(points[i], points[j], dd);
  }

  /** Every fall from a running peak is within the figure, in percent of the peak, and one falls by all of it. */
  lemma DrawdownIsTheLargestFall(points: seq<real>, dd: real)
    requires |points| > 0 && points[0] > 0.0 && DrawdownFigure(points, dd)
    ensures forall i, j :: PeakFor(points, i, j) ==> FallsWithin(points, i, j, dd)
    ensures exists i, j :: PeakFor(points, i, j) && FallsBy(points, i, j, dd)
  {
    forall i, j | PeakFor(points, i, j)
      ensures FallsWithin(points, i, j, dd)
    {
      PeakIsPrefixMax(points, i, j);
      FallIsDrop(points, i, j, dd);
    }
    var i, j := SomeFall(points, dd);
  }

  lemma SomeFall(points: seq<real>, dd: real) returns (i: int, j: int)
    requires |points| > 0 && points[0] > 0.0 && DrawdownFigure(points, dd)
    ensures PeakFor(points, i, j) && FallsBy(points, i, j, dd)
  {
    j :| 0 <= j < |points| && Drop(points, j) == dd;
    i :| 0 <= i <= j && points[i] == PrefixMax(points, j);
    PeakIsPrefixMax(points, i, j);
    FallIsDrop(points, i, j, dd);
  }

  // ----- Trades -----

  lemma PnlPush(trades: seq<Trade>, t: Trade)
    ensures TradePnl(trades + [t]) == TradePnl(trades) + t.pnl
  {
    assert (trades + [t])[..|trades|] == trades;
  }

  /** The trades that won and the others: gross profit and gross loss are their sums. */
  lemma {:induction false} GrossIsOfItsTrades(trades: seq<Trade>) returns (winners: seq<Trade>, others: seq<Trade>)
    ensures multiset(winners) + multiset(others) == multiset(trades)
    ensures (forall t :: t in winners ==> t.pnl > 0.0) && (forall t :: t in others ==> t.pnl <= 0.0)
    ensures Gains(trades) == TradePnl(winners) && Gains(trades) - TradePnl(trades) == -TradePnl(others)
  {
    winners, others := [], [];
    if trades != [] {
      var n := |trades| - 1;
      winners, others := GrossIsOfItsTrades(trades[..n]);
      assert trades == trades[..n] + [trades[n]];
      if trades[n].pnl > 0.0 {
        PnlPush(winners, trades[n]);
        winners := winners + [trades[n]];
      } else {
        PnlPush(others, trades[n]);
        others := others + [trades[n]];
      }
    }
  }

  ghost function Positions(trades: seq<Trade>, wins: bool): set<int> {
    set i | 0 <= i < |trades| && if wins then trades[i].pnl > 0.0 else trades[i].pnl < 0.0
  }

  /** Wins and losses are the numbers of trades with a profit and with a loss. */
  lemma {:induction false} CountsAreOfTheirTrades(trades: seq<Trade>)
    ensures Count(trades, 1) == |Positions(trades, true)| && Count(trades, -1) == |Positions(trades, false)|
  {
    if trades != [] {
      var n := |trades| - 1;
      CountsAreOfTheirTrades(trades[..n]);
      OneMore(trades, true);
      OneMore(trades, false);
    } else {
      assert Positions(trades, true) == {} && Positions(trades, false) == {};
    }
  }

  lemma OneMore(trades: seq<Trade>, wins: bool)
    requires trades != []
    ensures var n, t := |trades| - 1, trades[|trades| - 1];
      |Positions(trades, wins)|
      == |Positions(trades[..n], wins)| + if (if wins then t.pnl > 0.0 else t.pnl < 0.0) then 1 else 0
  {
    var n := |trades| - 1;
    assert Positions(trades, wins)
        == Positions(trades[..n], wins) + if n in Positions(trades, wins) then {n} else {};
  }

  // ----- Fees -----

  function Free(f: Fill): Fill {
    f.(fee := 0.0)
  }

  /** The same fills without fees. */
  function FreeOf(fills: seq<Fill>): (r: seq<Fill>)
    ensures |r| == |fills| && forall i :: 0 <= i < |fills| ==> r[i] == Free(fills[i])
  {
    seq(|fills|, i requires 0 <= i < |fills| => Free(fills[i]))
  }

  /** The fees are exactly the cash they take: the ledger without them has that much more, and the same holdings. */
  lemma {:induction false} FeesAreTheirCash(fills: seq<Fill>)
    ensures LedgerOf(FreeOf(fills)).net == LedgerOf(fills).net
    ensures LedgerOf(FreeOf(fills)).cash == LedgerOf(fills).cash + Fees(fills)
  {
    if fills != [] {
      var n := |fills| - 1;
      FeesAreTheirCash(fills[..n]);
      assert FreeOf(fills)[..n] == FreeOf(fills[..n]);
      FreePays(LedgerOf(fills[..n]), LedgerOf(FreeOf(fills[..n])), fills[n]);
    }
  }

  lemma FreePays(l: Ledger, free: Ledger, f: Fill)
    requires free.net == l.net
    ensures Pay(free, Free(f)).net == Pay(l, f).net
    ensures Pay(free, Free(f)).cash - free.cash == Pay(l, f).cash - l.cash + f.fee
  {
    var held := if f.symbol in l.net then l.net[f.symbol] else 0.0;
    assert Paid(held, Free(f)) == Paid(held, f);
  }
}
