/**
 The paper-gate replay: one signed average-cost book per symbol, folded into
 closed trades, an equity curve and a one-pass maximum drawdown.

 The replay is a fast accounting form. It is proved against a plain cash ledger
 that knows no averages, no realized profit and no spans.
 */
module PaperGate {
  import opened Wrappers
  import opened Decimals
  import opened MapSums

  datatype Fill = Fill(symbol: string, side: string, reduceOnly: bool,
                       qty: real, price: real, fee: real, ts: string)

  /** One closed trade: a maximal span in which a book leaves zero and returns to it. */
  datatype Trade = Trade(pnl: real, closingNotional: real)

  /** One symbol's signed position plus the accumulators of its running span. */
  datatype Book = Book(qty: real, avg: real, pnl: real, notional: real)

  const FLAT := Book(0.0, 0.0, 0.0, 0.0)

  /** The reduce-only clamp: a sizing bound that can only close a book toward zero. */
  function ClampedQty(held: real, f: Fill): (q: real) {
    if !f.reduceOnly then f.qty
    else if held == 0.0 || Sign(held) == (if f.side == "buy" then 1 else -1) then 0.0
    else Min(f.qty, Abs(held))
  }

  datatype Booked = Booked(book: Book, gross: real, closed: Option<Trade>)

  /** The average of price a over quantity q and price p over quantity d. */
  function Mean(a: real, q: real, p: real, d: real): real
    requires q + d > 0.0
  {
    (a * q + p * d) / (q + d)
  }

  /** The weighted-average entry price. */
  function Averaged(b: Book, price: real, qty: real): real
    requires Abs(b.qty) + qty > 0.0
  {
    Mean(b.avg, Abs(b.qty), price, qty)
  }

  function Notional(qty: real, price: real): real {
    qty * price
  }

  /** Opening or increasing: the entry price becomes the weighted average. */
  function Increase(b: Book, f: Fill, qty: real): Book {
    Book(if f.side == "buy" then b.qty + qty else b.qty - qty,
         if Abs(b.qty) + qty > 0.0 then Averaged(b, f.price, qty) else b.avg,
         b.pnl - f.fee, b.notional)
  }

  /** The profit of closing part of a book, before rounding. */
  function Exact(b: Book, price: real, closed: real): real {
    if b.qty > 0.0 then (price - b.avg) * closed else -((price - b.avg) * closed)
  }

  /** The profit of closing part of a book, rounded as it is booked. */
  function Realized(b: Book, price: real, closed: real): real {
    Round8(Exact(b, price, closed))
  }

  /** Reducing, closing or flipping: only the reducing portion counts toward the span. */
  function Reduce(b: Book, f: Fill, qty: real): Booked {
    var closed := Min(qty, Abs(b.qty));
    var gross := Realized(b, f.price, closed);
    var left := if f.side == "buy" then b.qty + qty else b.qty - qty;
    var span := Trade(b.pnl + gross - f.fee, b.notional + Notional(closed, f.price));
    if qty > Abs(b.qty) then Booked(Book(left, f.price, 0.0, 0.0), gross, Some(span))
    else if left == 0.0 then Booked(FLAT, gross, Some(span))
    else Booked(Book(left, b.avg, span.pnl, span.closingNotional), gross, None)
  }

  /** What one fill does to its own book. */
  function ApplyFill(b: Book, f: Fill): Booked {
    var qty := ClampedQty(b.qty, f);
    if b.qty == 0.0 || Sign(b.qty) == Sign(if f.side == "buy" then qty else -qty)
    then Booked(Increase(b, f, qty), 0.0, None)
    else Reduce(b, f, qty)
  }

  datatype Account = Account(books: map<string, Book>, trades: seq<Trade>, equity: real)

  function BookOf(books: map<string, Book>, symbol: string): Book {
    if symbol in books then books[symbol] else FLAT
  }

  function Post(a: Account, f: Fill): Account {
    var r := ApplyFill(BookOf(a.books, f.symbol), f);
    Account(a.books[f.symbol := r.book],
            if r.closed.Some? then a.trades + [r.closed.value] else a.trades,
            a.equity + r.gross - f.fee)
  }

  /** The replay as a fold over the fills. */
  function Run(fills: seq<Fill>, seed: real): Account {
    if fills == [] then Account(map[], [], seed)
    else Post(Run(fills[..|fills| - 1], seed), fills[|fills| - 1])
  }

  /** The seed followed by the equity after each fill. */
  function Curve(fills: seq<Fill>, seed: real): (points: seq<real>)
    ensures |points| == |fills| + 1 && points[0] == seed
    ensures points[|fills|] == Run(fills, seed).equity
  {
    if fills == [] then [seed]
    else Curve(fills[..|fills| - 1], seed) + [Run(fills, seed).equity]
  }

  lemma RunExtend(fills: seq<Fill>, i: nat, seed: real)
    requires i < |fills|
    ensures Run(fills[..i + 1], seed) == Post(Run(fills[..i], seed), fills[i])
    ensures Curve(fills[..i + 1], seed) == Curve(fills[..i], seed) + [Run(fills[..i + 1], seed).equity]
  {
    assert fills[..i + 1][..i] == fills[..i];
  }

  /** How far equity lies below peak, in percent of peak. */
  function DropPct(peak: real, equity: real): real
    requires peak > 0.0
  {
    (peak - equity) / peak * 100.0
  }

  /** One fill on one book, statement by statement. */
  method BookFill(before: Book, f: Fill) returns (b: Book, gross: real, closed: Option<Trade>)
    ensures Booked(b, gross, closed) == ApplyFill(before, f)
  {
    b, gross, closed := before, 0.0, None;
    var buy := f.side == "buy";
    var qty := f.qty;
    if f.reduceOnly {
      if b.qty == 0.0 || Sign(b.qty) == (if buy then 1 else -1) {
        qty := 0.0;
      } else {
        qty := Min(qty, Abs(b.qty));
      }
    }
    var delta := if buy then qty else -qty;
    if b.qty == 0.0 || Sign(b.qty) == Sign(delta) {
      var total := Abs(b.qty) + qty;
      if Sign(total) > 0 {
        b := b.(avg := Averaged(b, f.price, qty));
      }
      b := b.(qty := b.qty + delta);
      b := b.(pnl := b.pnl - f.fee);
    } else {
      var reduced := Min(qty, Abs(b.qty));
      gross := Realized(b, f.price, reduced);
      b := b.(pnl := b.pnl + gross - f.fee);
      b := b.(notional := b.notional + Notional(reduced, f.price));
      var flip := qty > Abs(b.qty);
      b := b.(qty := b.qty + delta);
      if b.qty == 0.0 || flip {
        ghost var expected := Reduce(before, f, qty).closed.value;
        assert b.pnl == expected.pnl && b.notional == expected.closingNotional;
        closed := Some(Trade(b.pnl, b.notional));
        b := b.(pnl := 0.0, notional := 0.0);
        if flip {
          b := b.(avg := f.price);
        } else {
          b := b.(avg := 0.0);
        }
      }
    }
  }

  /** One more equity point: the peak and the drawdown figure after it. */
  method Observe(ghost points: seq<real>, seed: real, peak: real, maxDD: real, equity: real)
    returns (newPeak: real, newMaxDD: real)
    requires |points| > 0 && points[0] == seed
    requires peak == PrefixMax(points, |points| - 1) && DrawdownFigure(points, maxDD)
    ensures newPeak == PrefixMax(points + [equity], |points|)
    ensures DrawdownFigure(points + [equity], newMaxDD)
  {
    PrefixMaxExtend(points, equity, |points| - 1);
    DrawdownExtend(points, equity, maxDD);
    newPeak, newMaxDD := Max(peak, equity), maxDD;
    if Sign(seed) > 0 {
      var dd := DropPct(newPeak, equity);
      if dd > maxDD {
        newMaxDD := dd;
      }
    }
  }

  lemma TailExtends(points: seq<real>, x: real)
    requires |points| > 0
    ensures (points + [x])[1..] == points[1..] + [x]
  {
  }

  /** The single book walk, observed fill by fill. */
  method Walk(fills: seq<Fill>, seed: real)
    returns (trades: seq<Trade>, maxDD: real, observed: seq<real>)
    ensures trades == Run(fills, seed).trades
    ensures observed == Curve(fills, seed)[1..]
    ensures DrawdownFigure(Curve(fills, seed), maxDD)
  {
    var books: map<string, Book> := map[];
    var equity, peak := seed, seed;
    trades, maxDD, observed := [], 0.0, [];
    ghost var points := [seed];
    DrawdownStarts(seed);
    for i := 0 to |fills|
      invariant Account(books, trades, equity) == Run(fills[..i], seed)
      invariant points == Curve(fills[..i], seed) && observed == points[1..]
      invariant peak == PrefixMax(points, i) && DrawdownFigure(points, maxDD)
    {
      var f := fills[i];
      RunExtend(fills, i, seed);
      var b, gross, closed := BookFill(BookOf(books, f.symbol), f);
      books := books[f.symbol := b];
      if closed.Some? {
        trades := trades + [closed.value];
      }
      equity := equity + gross - f.fee;
      assert Account(books, trades, equity) == Run(fills[..i + 1], seed);
      observed := observed + [equity];
      peak, maxDD := Observe(points, seed, peak, maxDD, equity);
      TailExtends(points, equity);
      points := points + [equity];
    }
    assert fills[..|fills|] == fills;
  }

  // ----- The plain cash ledger -----

  /** Signed holdings, cash moved since the seed, and how many fills reduced a holding. */
  datatype Ledger = Ledger(net: map<string, real>, cash: real, reductions: nat)

  /** The signed quantity a fill really moves, given what is held: a reduce-only one stops at zero. */
  function Moved(held: real, f: Fill): real {
    var wanted := if f.side == "buy" then f.qty else -f.qty;
    if !f.reduceOnly then wanted
    else if held > 0.0 && f.side != "buy" then Max(wanted, -held)
    else if held < 0.0 && f.side == "buy" then Min(wanted, -held)
    else 0.0
  }

  /** The fill moves a holding against its sign. */
  predicate Reduces(held: real, f: Fill) {
    (held > 0.0 && Moved(held, f) < 0.0) || (held < 0.0 && Moved(held, f) > 0.0)
  }

  /** The cash a fill pays out, negative when it receives. */
  function Paid(held: real, f: Fill): real {
    Moved(held, f) * f.price
  }

  function Pay(l: Ledger, f: Fill): Ledger {
    var held := GetOr(l.net, f.symbol, 0.0);
    var moved := Moved(held, f);
    Ledger(l.net[f.symbol := held + moved],
           l.cash - Paid(held, f) - f.fee,
           if Reduces(held, f) then l.reductions + 1 else l.reductions)
  }

  function LedgerOf(fills: seq<Fill>): Ledger {
    if fills == [] then Ledger(map[], 0.0, 0)
    else Pay(LedgerOf(fills[..|fills| - 1]), fills[|fills| - 1])
  }

  /** The i-th fill's quantity, as clamped by what the ledger holds, is a size. */
  predicate EffectiveAt(fills: seq<Fill>, i: nat)
    requires i < |fills|
  {
    ClampedQty(GetOr(LedgerOf(fills[..i]).net, fills[i].symbol, 0.0), fills[i]) >= 0.0
  }

  /** Every fill moves its book the way its side says. A list of non-negative quantities always does. */
  ghost predicate Effective(fills: seq<Fill>) {
    forall i :: 0 <= i < |fills| ==> EffectiveAt(fills, i)
  }

  lemma SizesAreEffective(fills: seq<Fill>)
    requires forall i :: 0 <= i < |fills| ==> fills[i].qty >= 0.0
    ensures Effective(fills)
  {
  }

  lemma EffectivePrefix(fills: seq<Fill>, n: nat)
    requires Effective(fills) && n <= |fills|
    ensures Effective(fills[..n])
  {
    forall i | 0 <= i < n
      ensures EffectiveAt(fills[..n], i)
    {
      assert fills[..n][..i] == fills[..i];
      assert EffectiveAt(fills, i);
    }
  }

  /** The signed cost basis of a book. */
  ghost function Cost(b: Book): real {
    b.avg * b.qty
  }

  ghost function Basis(books: map<string, Book>): map<string, real> {
    map k | k in books :: Cost(books[k])
  }

  /** The running profit of every open span. */
  ghost function OpenPnl(books: map<string, Book>): map<string, real> {
    map k | k in books :: books[k].pnl
  }

  lemma MovedIsDelta(b: Book, f: Fill)
    ensures Moved(b.qty, f) == if f.side == "buy" then ClampedQty(b.qty, f) else -ClampedQty(b.qty, f)
    ensures ApplyFill(b, f).book.qty == b.qty + Moved(b.qty, f)
  {
  }

  /** Opening or increasing: the cost basis grows by exactly what was paid. */
  lemma IncreaseKeepsCost(b: Book, f: Fill, qty: real, moved: real)
    requires qty >= 0.0 && moved == (if f.side == "buy" then qty else -qty)
    requires b.qty == 0.0 || Sign(b.qty) == Sign(moved)
    ensures var b' := Increase(b, f, qty);
            Cost(b') == Cost(b) + moved * f.price
  {
    if Abs(b.qty) + qty > 0.0 {
      MeanKeepsCost(b.avg, Abs(b.qty), f.price, qty);
    }
  }

  lemma MeanKeepsCost(a: real, q: real, p: real, d: real)
    requires q + d > 0.0
    ensures Mean(a, q, p, d) * (q + d) == a * q + d * p
    ensures Mean(a, q, p, d) * -(q + d) == a * -q + -d * p
  {
    var t, n := q + d, a * q + p * d;
    DivideBack(n, t);
    assert Mean(a, q, p, d) == n / t;
  }

  /** Reducing or flipping: the profit is the cash received less the cost basis given up. */
  lemma ReduceRealizes(b: Book, f: Fill, qty: real, moved: real)
    requires qty >= 0.0 && moved == (if f.side == "buy" then qty else -qty)
    requires b.qty != 0.0 && Sign(b.qty) != Sign(moved)
    ensures var b' := Reduce(b, f, qty).book;
            Exact(b, f.price, Min(qty, Abs(b.qty))) == Cost(b') - Cost(b) - moved * f.price
  {
    var p, a, q := f.price, b.avg, b.qty;
    if qty > Abs(q) {
      FlipArithmetic(p, a, q, moved);
      ExactOfAll(b, p);
    } else {
      ExactOfPart(b, p, qty, moved);
      CloseArithmetic(p, a, q, moved);
    }
  }

  /** Closing all of a book realizes the price difference on its signed quantity. */
  lemma ExactOfAll(b: Book, p: real)
    ensures Exact(b, p, Abs(b.qty)) == (p - b.avg) * b.qty
  {
    Negates(p - b.avg, b.qty);
  }

  /** Closing part of it realizes the difference against the signed quantity moved. */
  lemma ExactOfPart(b: Book, p: real, qty: real, moved: real)
    requires b.qty != 0.0 && qty >= 0.0 && moved == if b.qty > 0.0 then -qty else qty
    ensures Exact(b, p, qty) == -((p - b.avg) * moved)
  {
    Negates(p - b.avg, qty);
  }

  lemma Negates(x: real, y: real)
    ensures x * -y == -(x * y)
  {
  }

  lemma FlipArithmetic(p: real, a: real, q: real, m: real)
    ensures (p - a) * q == p * (q + m) - a * q - m * p
  {
  }

  lemma CloseArithmetic(p: real, a: real, q: real, m: real)
    ensures -((p - a) * m) == a * (q + m) - a * q - m * p
    ensures q + m == 0.0 ==> -((p - a) * m) == 0.0 - a * q - m * p
  {
  }

  /** Cost basis, cash and booked profit of one fill, up to the rounding of a reducing one. */
  ghost predicate Balances(b: Book, f: Fill) {
    var r := ApplyFill(b, f);
    var exact := Cost(r.book) - Cost(b) - Paid(b.qty, f);
    if Reduces(b.qty, f) then r.gross - 0.000000005 <= exact <= r.gross + 0.000000005 else r.gross == exact
  }

  lemma OpeningBalances(b: Book, f: Fill)
    requires ClampedQty(b.qty, f) >= 0.0 && (b.qty == 0.0 || Sign(b.qty) == Sign(Moved(b.qty, f)))
    ensures Balances(b, f)
  {
    MovedIsDelta(b, f);
    IncreaseKeepsCost(b, f, ClampedQty(b.qty, f), Moved(b.qty, f));
  }

  lemma ReducingBalances(b: Book, f: Fill)
    requires ClampedQty(b.qty, f) >= 0.0 && b.qty != 0.0 && Sign(b.qty) != Sign(Moved(b.qty, f))
    ensures Balances(b, f)
  {
    MovedIsDelta(b, f);
    ReduceRealizes(b, f, ClampedQty(b.qty, f), Moved(b.qty, f));
    if Moved(b.qty, f) == 0.0 {
      assert Exact(b, f.price, 0.0) == 0.0 == Round8(0.0);
    }
  }

  /** The two forms of one fill, and the rounding that separates them. */
  lemma FillBalance(b: Book, f: Fill)
    requires ClampedQty(b.qty, f) >= 0.0 && (b.qty == 0.0 ==> b.avg == 0.0)
    ensures Balances(b, f)
    ensures ApplyFill(b, f).book.qty == 0.0 ==> ApplyFill(b, f).book.avg == 0.0
  {
    MovedIsDelta(b, f);
    if b.qty == 0.0 || Sign(b.qty) == Sign(Moved(b.qty, f)) {
      OpeningBalances(b, f);
    } else {
      ReducingBalances(b, f);
    }
  }

  /** Every book holds exactly the ledger's net quantity, and a flat book has no average. */
  ghost predicate Agree(books: map<string, Book>, net: map<string, real>) {
    && books.Keys == net.Keys
    && forall k :: k in books ==> books[k].qty == net[k] && (books[k].qty == 0.0 ==> books[k].avg == 0.0)
  }

  lemma AgreeAt(books: map<string, Book>, net: map<string, real>, symbol: string)
    requires Agree(books, net)
    ensures var b := BookOf(books, symbol);
            b.qty == GetOr(net, symbol, 0.0) && (b.qty == 0.0 ==> b.avg == 0.0)
  {
    if symbol in books {
    } else {
      assert BookOf(books, symbol) == FLAT;
    }
  }

  lemma {:induction false} BooksMatchLedger(fills: seq<Fill>, seed: real)
    requires Effective(fills)
    ensures Agree(Run(fills, seed).books, LedgerOf(fills).net)
  {
    if fills != [] {
      var n := |fills| - 1;
      EffectivePrefix(fills, n);
      BooksMatchLedger(fills[..n], seed);
      assert EffectiveAt(fills, n);
      var s, l, f := Run(fills[..n], seed), LedgerOf(fills[..n]), fills[n];
      AgreeAt(s.books, l.net, f.symbol);
      var b := BookOf(s.books, f.symbol);
      MovedIsDelta(b, f);
      FillBalance(b, f);
    }
  }

  /**
   The accounting identity. Equity gained since the seed is the cash of the plain
   ledger plus the cost basis of all open books, up to half a unit in the eighth
   decimal for every fill that reduced a holding.
   */
  lemma {:induction false} EquityIsCashPlusBasis(fills: seq<Fill>, seed: real)
    requires Effective(fills)
    ensures WithinRounding(Run(fills, seed), seed, LedgerOf(fills))
  {
    if fills == [] {
      assert Basis(map[]) == map[];
    } else {
      var n := |fills| - 1;
      EffectivePrefix(fills, n);
      EquityIsCashPlusBasis(fills[..n], seed);
      BooksMatchLedger(fills[..n], seed);
      assert EffectiveAt(fills, n);
      PostStaysWithinRounding(Run(fills[..n], seed), seed, LedgerOf(fills[..n]), fills[n]);
    }
  }

  /** Equity and ledger differ by at most half a unit in the eighth decimal per reduction. */
  ghost predicate WithinRounding(a: Account, seed: real, l: Ledger) {
    var slack := 0.000000005 * l.reductions as real;
    -slack <= a.equity - seed - (l.cash + Total(Basis(a.books))) <= slack
  }

  lemma PostStaysWithinRounding(a: Account, seed: real, l: Ledger, f: Fill)
    requires ClampedQty(GetOr(l.net, f.symbol, 0.0), f) >= 0.0 && Agree(a.books, l.net) && WithinRounding(a, seed, l)
    ensures WithinRounding(Post(a, f), seed, Pay(l, f))
  {
    AgreeAt(a.books, l.net, f.symbol);
    var b := BookOf(a.books, f.symbol);
    FillBalance(b, f);
    var r := ApplyFill(b, f);
    BasisUpdate(a.books, f.symbol, r.book);
    SlackGrows(a, Post(a, f), l, Pay(l, f), seed, r.gross, f.fee, Paid(b.qty, f),
               Cost(r.book) - Cost(b), Reduces(b.qty, f));
  }

  lemma BasisAt(books: map<string, Book>, symbol: string)
    ensures GetOr(Basis(books), symbol, 0.0) == Cost(BookOf(books, symbol))
  {
    if symbol in books {
      assert Basis(books)[symbol] == Cost(books[symbol]);
    } else {
      assert Cost(FLAT) == 0.0;
    }
  }

  lemma BasisExtends(books: map<string, Book>, symbol: string, b: Book)
    ensures Basis(books[symbol := b]) == Basis(books)[symbol := Cost(b)]
  {
  }

  lemma BasisUpdate(books: map<string, Book>, symbol: string, b: Book)
    ensures Total(Basis(books[symbol := b]))
         == Total(Basis(books)) + (Cost(b) - Cost(BookOf(books, symbol)))
  {
    TotalUpdate(Basis(books), symbol, Cost(b));
    BasisExtends(books, symbol, b);
    BasisAt(books, symbol);
  }

  lemma SlackGrows(a: Account, a': Account, l: Ledger, l': Ledger, seed: real,
                   gross: real, fee: real, paid: real, more: real, reduces: bool)
    requires WithinRounding(a, seed, l)
    requires a'.equity == a.equity + gross - fee && l'.cash == l.cash - paid - fee
    requires Total(Basis(a'.books)) == Total(Basis(a.books)) + more
    requires l'.reductions == if reduces then l.reductions + 1 else l.reductions
    requires if reduces then gross - 0.000000005 <= more - paid <= gross + 0.000000005
             else gross == more - paid
    ensures WithinRounding(a', seed, l')
  {
  }

  /** Equity is the seed plus every closed trade plus every open span, rounding included. */
  lemma {:induction false} EquityIsTradesPlusOpenSpans(fills: seq<Fill>, seed: real)
    ensures var s := Run(fills, seed);
            s.equity == seed + TradePnl(s.trades) + Total(OpenPnl(s.books))
  {
    if fills == [] {
      assert OpenPnl(map[]) == map[];
    } else {
      var n := |fills| - 1;
      EquityIsTradesPlusOpenSpans(fills[..n], seed);
      var s, f := Run(fills[..n], seed), fills[n];
      var r := ApplyFill(BookOf(s.books, f.symbol), f);
      TotalUpdate(OpenPnl(s.books), f.symbol, r.book.pnl);
      assert OpenPnl(Run(fills, seed).books) == OpenPnl(s.books)[f.symbol := r.book.pnl];
      assert GetOr(OpenPnl(s.books), f.symbol, 0.0) == BookOf(s.books, f.symbol).pnl;
      if r.closed.Some? {
        assert (s.trades + [r.closed.value])[..|s.trades|] == s.trades;
      }
    }
  }

  ghost function TradePnl(trades: seq<Trade>): real {
    if trades == [] then 0.0 else TradePnl(trades[..|trades| - 1]) + trades[|trades| - 1].pnl
  }

  /** Nothing opened, nothing grown, nothing flipped: the book only moved toward zero. */
  predicate OnlyCloses(before: real, after: real) {
    Abs(after) <= Abs(before) && (after == 0.0 || Sign(after) == Sign(before))
  }

  /** A reduce-only fill only moves its book toward zero exactly when its clamped quantity is a size. */
  lemma ReduceOnlyOnlyCloses(b: Book, f: Fill)
    requires f.reduceOnly
    ensures OnlyCloses(b.qty, ApplyFill(b, f).book.qty) <==> ClampedQty(b.qty, f) >= 0.0
    ensures f.qty >= 0.0 ==> ClampedQty(b.qty, f) >= 0.0
  {
    MovedIsDelta(b, f);
  }

  ghost const NEGATIVE := Fill("BTC/USDT", "buy", false, -1.0, 100.0, 0.0, "")

  lemma NegativeOnTheBooks()
    ensures Run([NEGATIVE], 0.0).equity == 0.0
    ensures Run([NEGATIVE], 0.0).books == map[][NEGATIVE.symbol := Book(-1.0, 0.0, 0.0, 0.0)]
  {
    var r := ApplyFill(FLAT, NEGATIVE);
    assert r.book == Book(-1.0, 0.0, 0.0, 0.0) && r.gross == 0.0;
    var empty := Account(map[], [], 0.0);
    assert [NEGATIVE][..0] == [] && Run([], 0.0) == empty;
    assert BookOf(empty.books, NEGATIVE.symbol) == FLAT;
    assert Run([NEGATIVE], 0.0) == Post(empty, NEGATIVE);
  }

  lemma NegativeOnTheLedger()
    ensures LedgerOf([NEGATIVE]).cash == 100.0 && LedgerOf([NEGATIVE]).reductions == 0
  {
    assert [NEGATIVE][..0] == [];
    assert LedgerOf([NEGATIVE]) == Pay(LedgerOf([]), NEGATIVE);
    assert Moved(0.0, NEGATIVE) == -1.0;
  }

  /**
   A negative quantity that opens a book leaves the average at zero: the ledger is paid
   for a position the books carry at no cost.
   */
  lemma NegativeSizeBreaksTheIdentity()
    ensures !WithinRounding(Run([NEGATIVE], 0.0), 0.0, LedgerOf([NEGATIVE]))
  {
    NegativeOnTheBooks();
    NegativeOnTheLedger();
    NegativeBasis();
  }

  lemma NegativeBasis()
    ensures Total(Basis(map[][NEGATIVE.symbol := Book(-1.0, 0.0, 0.0, 0.0)])) == 0.0
  {
    var b := Book(-1.0, 0.0, 0.0, 0.0);
    BasisUpdate(map[], NEGATIVE.symbol, b);
    assert Basis(map[]) == map[];
    assert Cost(b) == 0.0 && Cost(FLAT) == 0.0;
  }

  // ----- Drawdown -----

  /** The largest of points[0..j]. */
  ghost function PrefixMax(points: seq<real>, j: nat): (m: real)
    requires j < |points|
    ensures forall i :: 0 <= i <= j ==> points[i] <= m
    ensures exists i :: 0 <= i <= j && points[i] == m
  {
    if j == 0 then points[0] else Max(PrefixMax(points, j - 1), points[j])
  }

  /** How far point j lies below everything seen so far, in percent. */
  ghost function Drop(points: seq<real>, j: nat): real
    requires j < |points| && points[0] > 0.0
  {
    DropPct(PrefixMax(points, j), points[j])
  }

  ghost predicate IsMaxDrawdown(points: seq<real>, dd: real)
    requires |points| > 0 && points[0] > 0.0
  {
    && (forall j :: 0 <= j < |points| ==> Drop(points, j) <= dd)
    && (exists j :: 0 <= j < |points| && Drop(points, j) == dd)
  }

  /** The drawdown figure is determined by the curve, so the gate and the arena agree on it. */
  lemma MaxDrawdownIsUnique(points: seq<real>, d: real, e: real)
    requires |points| > 0 && points[0] > 0.0 && IsMaxDrawdown(points, d) && IsMaxDrawdown(points, e)
    ensures d == e
  {
  }

  lemma {:induction false} PrefixMaxExtend(points: seq<real>, x: real, j: nat)
    requires j < |points|
    ensures PrefixMax(points + [x], j) == PrefixMax(points, j)
  {
    if j > 0 {
      PrefixMaxExtend(points, x, j - 1);
    }
  }

  /** The reported figure: the largest drop, or zero when the seed is not positive. */
  ghost predicate DrawdownFigure(points: seq<real>, dd: real)
    requires |points| > 0
  {
    if points[0] > 0.0 then IsMaxDrawdown(points, dd) else dd == 0.0
  }

  lemma DrawdownStarts(seed: real)
    ensures DrawdownFigure([seed], 0.0)
  {
    assert seed > 0.0 ==> Drop([seed], 0) == 0.0;
  }

  /** One more point keeps every earlier drop, so only its own drop can raise the maximum. */
  lemma DropsStay(points: seq<real>, x: real)
    requires |points| > 0 && points[0] > 0.0
    ensures forall j :: 0 <= j < |points| ==> Drop(points + [x], j) == Drop(points, j)
  {
    forall j | 0 <= j < |points|
      ensures Drop(points + [x], j) == Drop(points, j)
    {
      PrefixMaxExtend(points, x, j);
    }
  }

  lemma LargestExtends(points: seq<real>, after: seq<real>, x: real, dd: real)
    requires |points| > 0 && points[0] > 0.0 && IsMaxDrawdown(points, dd) && after == points + [x]
    ensures IsMaxDrawdown(after, Max(dd, Drop(after, |points|)))
  {
    DropsStay(points, x);
    var k :| 0 <= k < |points| && Drop(points, k) == dd;
    LargestOfMore(after, dd, k, |points|);
  }

  lemma DrawdownExtend(points: seq<real>, x: real, dd: real)
    requires |points| > 0 && DrawdownFigure(points, dd)
    ensures points[0] > 0.0 ==> DrawdownFigure(points + [x], Max(dd, Drop(points + [x], |points|)))
    ensures points[0] <= 0.0 ==> DrawdownFigure(points + [x], dd)
  {
    if points[0] > 0.0 {
      LargestExtends(points, points + [x], x, dd);
    }
  }

  lemma LargestOfMore(after: seq<real>, dd: real, k: nat, n: nat)
    requires |after| == n + 1 && after[0] > 0.0
    requires k < n && Drop(after, k) == dd
    requires forall j :: 0 <= j < n ==> Drop(after, j) <= dd
    ensures IsMaxDrawdown(after, Max(dd, Drop(after, n)))
  {
  }

  // ----- The arena curve -----

  datatype CurvePoint = CurvePoint(ts: string, equity: real)

  datatype CurveStats = CurveStats(realizedPnl: real, feesPaid: real, maxDrawdownPct: real,
                                   closedTrades: nat, wins: nat, losses: nat,
                                   winRatePct: real, profitFactor: Option<real>, lastFillAt: string)

  ghost function Fees(fills: seq<Fill>): real {
    if fills == [] then 0.0 else Fees(fills[..|fills| - 1]) + fills[|fills| - 1].fee
  }

  ghost function Gains(trades: seq<Trade>): (g: real)
    ensures g >= 0.0
  {
    if trades == [] then 0.0
    else Gains(trades[..|trades| - 1]) + Max(trades[|trades| - 1].pnl, 0.0)
  }

  ghost function Count(trades: seq<Trade>, sign: int): (c: nat)
    ensures c <= |trades|
  {
    if trades == [] then 0
    else Count(trades[..|trades| - 1], sign) + if Sign(trades[|trades| - 1].pnl) == sign then 1 else 0
  }

  /** r is the exact quotient num / den. */
  ghost predicate IsRatio(r: real, num: real, den: real) {
    r * den == num
  }

  lemma QuotientIsRatio(num: real, den: real)
    requires den != 0.0
    ensures IsRatio(num / den, num, den)
  {
  }

  lemma PercentIsRatio(part: real, whole: real)
    requires whole != 0.0
    ensures IsRatio(part / whole * 100.0, 100.0 * part, whole)
  {
    QuotientIsRatio(part, whole);
    assert part / whole * 100.0 * whole == part / whole * whole * 100.0;
  }

  /** Wins, losses, gross profit and gross loss over the closed trades. */
  method TallyTrades(trades: seq<Trade>) returns (wins: nat, losses: nat, gp: real, gl: real)
    ensures wins == Count(trades, 1) && losses == Count(trades, -1)
    ensures gp == Gains(trades) && gl == Gains(trades) - TradePnl(trades) && gl >= 0.0
  {
    wins, losses, gp, gl := 0, 0, 0.0, 0.0;
    for i := 0 to |trades|
      invariant wins == Count(trades[..i], 1) && losses == Count(trades[..i], -1)
      invariant gp == Gains(trades[..i]) && gl == gp - TradePnl(trades[..i]) && gl >= 0.0
    {
      assert trades[..i + 1][..i] == trades[..i];
      if Sign(trades[i].pnl) == 1 {
        wins, gp := wins + 1, gp + trades[i].pnl;
      } else if Sign(trades[i].pnl) == -1 {
        losses, gl := losses + 1, gl - trades[i].pnl;
      }
    }
    assert trades[..|trades|] == trades;
  }

  method SumFees(fills: seq<Fill>) returns (paid: real)
    ensures paid == Fees(fills)
  {
    paid := 0.0;
    for i := 0 to |fills|
      invariant paid == Fees(fills[..i])
    {
      assert fills[..i + 1][..i] == fills[..i];
      paid := paid + fills[i].fee;
    }
    assert fills[..|fills|] == fills;
  }

  /** The arena replay: the gate's own trades and drawdown, one curve point per fill. */
  method ReplayCurve(fills: seq<Fill>, seed: real)
    returns (curve: seq<CurvePoint>, stats: CurveStats)
    ensures |curve| == |fills|
    ensures forall i :: 0 <= i < |fills| ==>
              curve[i] == CurvePoint(fills[i].ts, Curve(fills, seed)[i + 1])
    ensures var trades := Run(fills, seed).trades;
            && stats.closedTrades == |trades|
            && stats.wins == Count(trades, 1) && stats.losses == Count(trades, -1)
            && (trades == [] ==> stats.winRatePct == 0.0)
            && IsRatio(stats.winRatePct, 100.0 * stats.wins as real, stats.closedTrades as real)
            && var loss := Gains(trades) - TradePnl(trades);
            && (stats.profitFactor.Some? <==> loss > 0.0)
            && (stats.profitFactor.Some? ==> IsRatio(stats.profitFactor.value, Gains(trades), loss))
    ensures DrawdownFigure(Curve(fills, seed), stats.maxDrawdownPct)
    ensures stats.realizedPnl == Run(fills, seed).equity - seed
    ensures stats.feesPaid == Fees(fills)
    ensures stats.lastFillAt == if fills == [] then "" else fills[|fills| - 1].ts
  {
    var trades, maxDD, observed := Walk(fills, seed);
    curve := seq(|fills|, i requires 0 <= i < |fills| == |observed| => CurvePoint(fills[i].ts, observed[i]));
    var feesPaid := SumFees(fills);
    var realized, last := 0.0, "";
    if |fills| > 0 {
      realized := curve[|curve| - 1].equity - seed;
      last := fills[|fills| - 1].ts;
    }
    var wins, losses, gp, gl := TallyTrades(trades);
    var winRate := 0.0;
    if |trades| > 0 {
      winRate := wins as real / |trades| as real * 100.0;
      PercentIsRatio(wins as real, |trades| as real);
    }
    if gl > 0.0 {
      QuotientIsRatio(gp, gl);
    }
    stats := CurveStats(realized, feesPaid, maxDD, |trades|, wins, losses, winRate,
                        if gl > 0.0 then Some(gp / gl) else None, last);
  }
}
