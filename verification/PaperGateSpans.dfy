/**
 Closed trades against the plain ledger: a trade closes exactly where a holding crosses
 zero, and its profit and closing notional are those of its own span's fills.
 */
module PaperGateSpans {
  import opened Wrappers
  import opened Decimals
  import opened MapSums
  import opened PaperGate

  // ----- One fill -----

  /** The part of a fill that closes what is held. */
  function Closing(held: real, f: Fill): real {
    if Reduces(held, f) then Min(Abs(Moved(held, f)), Abs(held)) else 0.0
  }

  function ClosingNotional(held: real, f: Fill): real {
    Closing(held, f) * f.price
  }

  /** What is left after a crossing is worth its quantity at the fill price. */
  function Remainder(held: real, f: Fill): real {
    f.price * (held + Moved(held, f))
  }

  /** The fill takes a holding to zero or over it. */
  predicate Crosses(held: real, f: Fill) {
    held != 0.0 && Sign(held + Moved(held, f)) != Sign(held)
  }

  lemma ClosesAtTheCrossing(b: Book, f: Fill)
    requires ClampedQty(b.qty, f) >= 0.0
    ensures ApplyFill(b, f).closed.Some? <==> Crosses(b.qty, f)
  {
    MovedIsDelta(b, f);
  }

  lemma ClosingIsReduced(b: Book, f: Fill)
    requires ClampedQty(b.qty, f) >= 0.0
    ensures Reduces(b.qty, f) ==> Closing(b.qty, f) == Min(ClampedQty(b.qty, f), Abs(b.qty))
    ensures Reduces(b.qty, f) <==> b.qty != 0.0 && Sign(b.qty) != Sign(Moved(b.qty, f)) && ClampedQty(b.qty, f) > 0.0
  {
    MovedIsDelta(b, f);
  }

  /** What the fill adds to the accumulators of its span, and where they go when the span closes. */
  lemma FillAccumulates(b: Book, f: Fill)
    requires ClampedQty(b.qty, f) >= 0.0
    ensures var r := ApplyFill(b, f);
      var pnl, notional := b.pnl + r.gross - f.fee, b.notional + ClosingNotional(b.qty, f);
      if Crosses(b.qty, f)
      then r.closed == Some(Trade(pnl, notional)) && r.book.pnl == 0.0 && r.book.notional == 0.0
           && Cost(r.book) == Remainder(b.qty, f)
      else r.closed.None? && r.book.pnl == pnl && r.book.notional == notional
  {
    MovedIsDelta(b, f);
    ClosingIsReduced(b, f);
    if !Reduces(b.qty, f) {
      assert ClosingNotional(b.qty, f) == 0.0;
    }
  }

  // ----- Spans over a list of fills -----

  /** The cash a span has received so far, its closing notional, and its reducing fills. */
  datatype Span = Span(cash: real, notional: real, reductions: nat)

  function Held(fills: seq<Fill>, symbol: string): real {
    GetOr(LedgerOf(fills).net, symbol, 0.0)
  }

  predicate CrossesAt(fills: seq<Fill>, i: nat)
    requires i < |fills|
  {
    Crosses(Held(fills[..i], fills[i].symbol), fills[i])
  }

  function Tallied(s: Span, held: real, f: Fill): Span {
    Span(s.cash - Paid(held, f) - f.fee, s.notional + ClosingNotional(held, f),
         s.reductions + if Reduces(held, f) then 1 else 0)
  }

  /** The symbol's running span: its fills since the last crossing, whose remainder it starts from. */
  function SpanOf(fills: seq<Fill>, symbol: string): Span {
    if fills == [] then Span(0.0, 0.0, 0)
    else
      var n := |fills| - 1;
      var before, f, held := SpanOf(fills[..n], symbol), fills[n], Held(fills[..n], symbol);
      if f.symbol != symbol then before
      else if Crosses(held, f) then Span(-Remainder(held, f), 0.0, 0)
      else Tallied(before, held, f)
  }

  /** The whole span that the i-th fill closes; what is left over it is worth the fill price. */
  function ClosedSpan(fills: seq<Fill>, i: nat): Span
    requires i < |fills|
  {
    var f := fills[i];
    var held := Held(fills[..i], f.symbol);
    var s := Tallied(SpanOf(fills[..i], f.symbol), held, f);
    s.(cash := s.cash + Remainder(held, f))
  }

  /** Where holdings cross zero, in order. */
  function Crossings(fills: seq<Fill>): (at: seq<nat>)
    ensures forall k :: 0 <= k < |at| ==> at[k] < |fills|
  {
    if fills == [] then []
    else
      var n := |fills| - 1;
      var rest := Crossings(fills[..n]);
      if CrossesAt(fills, n) then rest + [n] else rest
  }

  lemma {:induction false} CrossingsAreAll(fills: seq<Fill>)
    ensures forall j, k :: 0 <= j < k < |Crossings(fills)| ==> Crossings(fills)[j] < Crossings(fills)[k]
    ensures forall i :: 0 <= i < |fills| ==> (i in Crossings(fills) <==> CrossesAt(fills, i))
  {
    if fills != [] {
      var n := |fills| - 1;
      CrossingsAreAll(fills[..n]);
      forall i | 0 <= i < n
        ensures CrossesAt(fills[..n], i) == CrossesAt(fills, i)
      {
        assert fills[..n][..i] == fills[..i];
      }
    }
  }

  /** The trade is its span: the notional exactly, the profit within the rounding of the reducing fills. */
  ghost predicate IsSpan(t: Trade, s: Span) {
    t.closingNotional == s.notional && Near(t.pnl, s.cash, s.reductions)
  }

  ghost predicate Near(x: real, y: real, reductions: nat) {
    Abs(x - y) <= 0.000000005 * reductions as real
  }

  ghost predicate RunsSpan(b: Book, s: Span) {
    b.notional == s.notional && Near(b.pnl, s.cash + Cost(b), s.reductions)
  }

  /** The change of a cost basis, what was paid, and the profit booked. */
  ghost predicate Balanced(change: real, paid: real, gross: real, reduces: bool) {
    if reduces then gross - 0.000000005 <= change - paid <= gross + 0.000000005 else gross == change - paid
  }

  lemma NearMoves(pnl: real, cash: real, cost: real, n: nat, cost': real, paid: real, gross: real, fee: real, reduces: bool)
    requires Near(pnl, cash + cost, n) && Balanced(cost' - cost, paid, gross, reduces)
    ensures Near(pnl + gross - fee, cash - paid - fee + cost', n + if reduces then 1 else 0)
  {
  }

  lemma FillBalances(b: Book, f: Fill)
    requires ClampedQty(b.qty, f) >= 0.0 && (b.qty == 0.0 ==> b.avg == 0.0)
    ensures var r := ApplyFill(b, f);
      Balanced(Cost(r.book) - Cost(b), Paid(b.qty, f), r.gross, Reduces(b.qty, f))
  {
    FillBalance(b, f);
  }

  /** The accumulators after a fill, before any closing, follow the span's tally. */
  lemma AccumulatorsFollow(b: Book, s: Span, f: Fill)
    requires ClampedQty(b.qty, f) >= 0.0 && (b.qty == 0.0 ==> b.avg == 0.0) && RunsSpan(b, s)
    ensures var r, t := ApplyFill(b, f), Tallied(s, b.qty, f);
      && b.notional + ClosingNotional(b.qty, f) == t.notional
      && Near(b.pnl + r.gross - f.fee, t.cash + Cost(r.book), t.reductions)
  {
    var r := ApplyFill(b, f);
    FillBalances(b, f);
    NearMoves(b.pnl, s.cash, Cost(b), s.reductions, Cost(r.book), Paid(b.qty, f), r.gross, f.fee, Reduces(b.qty, f));
  }

  lemma AccumulatorsAreSpan(r: Booked, crosses: bool, pnl: real, notional: real, left: real, t: Span)
    requires if crosses
      then r.closed == Some(Trade(pnl, notional)) && r.book.pnl == 0.0 && r.book.notional == 0.0 && Cost(r.book) == left
      else r.closed.None? && r.book.pnl == pnl && r.book.notional == notional
    requires notional == t.notional && Near(pnl, t.cash + Cost(r.book), t.reductions)
    ensures if crosses
      then r.closed.Some? && IsSpan(r.closed.value, t.(cash := t.cash + left)) && RunsSpan(r.book, Span(-left, 0.0, 0))
      else r.closed.None? && RunsSpan(r.book, t)
  {
  }

  /** One fill carries the running span along, or closes it. */
  lemma FillFollowsSpan(b: Book, s: Span, f: Fill)
    requires ClampedQty(b.qty, f) >= 0.0 && (b.qty == 0.0 ==> b.avg == 0.0) && RunsSpan(b, s)
    ensures var r, t := ApplyFill(b, f), Tallied(s, b.qty, f);
      if Crosses(b.qty, f)
      then r.closed.Some? && IsSpan(r.closed.value, t.(cash := t.cash + Remainder(b.qty, f)))
           && RunsSpan(r.book, Span(-Remainder(b.qty, f), 0.0, 0))
      else r.closed.None? && RunsSpan(r.book, t)
  {
    AccumulatorsFollow(b, s, f);
    FillAccumulates(b, f);
    var r := ApplyFill(b, f);
    AccumulatorsAreSpan(r, Crosses(b.qty, f), b.pnl + r.gross - f.fee, b.notional + ClosingNotional(b.qty, f),
                        Remainder(b.qty, f), Tallied(s, b.qty, f));
  }

  // ----- Every list -----

  ghost predicate SpansRun(fills: seq<Fill>, seed: real) {
    forall symbol :: RunsSpan(BookOf(Run(fills, seed).books, symbol), SpanOf(fills, symbol))
  }

  ghost predicate TradesAreSpans(fills: seq<Fill>, trades: seq<Trade>) {
    && |trades| == |Crossings(fills)|
    && forall k :: 0 <= k < |trades| ==> IsSpan(trades[k], ClosedSpan(fills, Crossings(fills)[k]))
  }

  lemma ClosedSpanStays(fills: seq<Fill>, n: nat, i: nat)
    requires i < n <= |fills|
    ensures ClosedSpan(fills[..n], i) == ClosedSpan(fills, i)
  {
    assert fills[..n][..i] == fills[..i];
  }

  lemma TradesPush(fills: seq<Fill>, trades: seq<Trade>, closed: Option<Trade>)
    requires fills != []
    requires var n := |fills| - 1;
      && TradesAreSpans(fills[..n], trades)
      && (closed.Some? <==> CrossesAt(fills, n)) && (closed.Some? ==> IsSpan(closed.value, ClosedSpan(fills, n)))
    ensures TradesAreSpans(fills, if closed.Some? then trades + [closed.value] else trades)
  {
    var n := |fills| - 1;
    var rest := Crossings(fills[..n]);
    forall k | 0 <= k < |rest|
      ensures ClosedSpan(fills[..n], rest[k]) == ClosedSpan(fills, rest[k])
    {
      ClosedSpanStays(fills, n, rest[k]);
    }
  }

  lemma SpanStep(fills: seq<Fill>, seed: real, symbol: string)
    requires fills != [] && Effective(fills) && SpansRun(fills[..|fills| - 1], seed)
    ensures RunsSpan(BookOf(Run(fills, seed).books, symbol), SpanOf(fills, symbol))
  {
    var n := |fills| - 1;
    assert RunsSpan(BookOf(Run(fills[..n], seed).books, symbol), SpanOf(fills[..n], symbol));
    if fills[n].symbol == symbol {
      LastFill(fills, seed);
    }
  }

  /** The last fill, on the book its own symbol has. */
  lemma LastFill(fills: seq<Fill>, seed: real)
    requires fills != [] && Effective(fills) && SpansRun(fills[..|fills| - 1], seed)
    ensures var n, f := |fills| - 1, fills[|fills| - 1];
      var b := BookOf(Run(fills[..n], seed).books, f.symbol);
      var closed := ApplyFill(b, f).closed;
      && (closed.Some? <==> CrossesAt(fills, n)) && (closed.Some? ==> IsSpan(closed.value, ClosedSpan(fills, n)))
      && RunsSpan(ApplyFill(b, f).book, SpanOf(fills, f.symbol))
  {
    var n, f := |fills| - 1, fills[|fills| - 1];
    var a, l := Run(fills[..n], seed), LedgerOf(fills[..n]);
    EffectivePrefix(fills, n);
    BooksMatchLedger(fills[..n], seed);
    AgreeAt(a.books, l.net, f.symbol);
    assert EffectiveAt(fills, n);
    assert RunsSpan(BookOf(a.books, f.symbol), SpanOf(fills[..n], f.symbol));
    FillFollowsSpan(BookOf(a.books, f.symbol), SpanOf(fills[..n], f.symbol), f);
  }

  /**
   For every list of fills whose clamped quantities are not negative: one trade closes at
   each crossing of zero, in order and nowhere else; its closing notional is exactly that
   of its span's reducing fills, and its profit the cash of its span.
   */
  lemma {:induction false} TradesAreCrossings(fills: seq<Fill>, seed: real)
    requires Effective(fills)
    ensures SpansRun(fills, seed) && TradesAreSpans(fills, Run(fills, seed).trades)
  {
    if fills == [] {
      StartsFlat(seed);
    } else {
      var n := |fills| - 1;
      EffectivePrefix(fills, n);
      TradesAreCrossings(fills[..n], seed);
      LastFill(fills, seed);
      var a := Run(fills[..n], seed);
      TradesPush(fills, a.trades, ApplyFill(BookOf(a.books, fills[n].symbol), fills[n]).closed);
      forall symbol
        ensures RunsSpan(BookOf(Run(fills, seed).books, symbol), SpanOf(fills, symbol))
      {
        SpanStep(fills, seed, symbol);
      }
    }
  }

  lemma StartsFlat(seed: real)
    ensures SpansRun([], seed)
  {
    FlatRunsNothing();
    forall symbol
      ensures RunsSpan(BookOf(Run([], seed).books, symbol), SpanOf([], symbol))
    {
      assert BookOf(Run([], seed).books, symbol) == FLAT && SpanOf([], symbol) == Span(0.0, 0.0, 0);
    }
  }

  lemma FlatRunsNothing()
    ensures RunsSpan(FLAT, Span(0.0, 0.0, 0))
  {
    assert Cost(FLAT) == 0.0;
    NothingIsNear();
  }
  lemma NothingIsNear()
    ensures Near(0.0, 0.0, 0)
  {
    assert 0 as real == 0.0;
  }
}
