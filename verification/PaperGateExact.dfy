/**
 Exactly when the accounting identity of the paper gate holds: a fill whose clamped
 quantity is negative breaks it at some price, and no other fill ever does.
 */
module PaperGateExact {
  import opened Decimals
  import opened MapSums
  import opened PaperGate

  // ----- One fill -----

  function Priced(f: Fill, price: real): Fill {
    f.(price := price)
  }

  /** How far the booked profit is from the change of basis and cash. */
  ghost function Gap(b: Book, f: Fill): real {
    var r := ApplyFill(b, f);
    r.gross - (Cost(r.book) - Cost(b) - Paid(b.qty, f))
  }

  /** A line that is not flat passes every height. */
  lemma LineReaches(slope: real, base: real, height: real) returns (x: real)
    requires slope != 0.0
    ensures slope * x + base == height
  {
    x := (height - base) / slope;
    DivideBack(height - base, slope);
  }

  /** Opening by a negative quantity leaves the average where it was. */
  lemma OpeningGap(b: Book, f: Fill)
    requires ClampedQty(b.qty, f) < 0.0 && Abs(b.qty) + ClampedQty(b.qty, f) <= 0.0
    requires b.qty == 0.0 || Sign(b.qty) == Sign(Moved(b.qty, f))
    ensures Gap(b, f) == Moved(b.qty, f) * f.price + -(b.avg * Moved(b.qty, f))
  {
    MovedIsDelta(b, f);
    assert b.avg * (b.qty + Moved(b.qty, f)) == b.avg * b.qty + b.avg * Moved(b.qty, f);
  }

  lemma GrowthArithmetic(a: real, p: real, held: real, q: real, v: real)
    requires v * (held + q) == a * held + p * q
    ensures (v * (held - q) - a * held + q * p) * (held + q) == 2.0 * q * held * (p - a)
  {
    var t, n := held + q, a * held + p * q;
    assert v * (held - q) * t == n * (held - q);
    assert n * (held - q) == a * held * held - a * held * q + p * q * held - p * q * q;
    assert (q * p - a * held) * t == q * p * held + q * p * q - a * held * held - a * held * q;
  }

  /** Growing by a negative quantity: the gap follows the price away from the average. */
  lemma GrowthGap(b: Book, f: Fill)
    requires ClampedQty(b.qty, f) < 0.0 && Abs(b.qty) + ClampedQty(b.qty, f) > 0.0
    requires b.qty == 0.0 || Sign(b.qty) == Sign(Moved(b.qty, f))
    ensures var q, held := ClampedQty(b.qty, f), Abs(b.qty);
      var k := 2.0 * q * held * (f.price - b.avg);
      Gap(b, f) * (held + q) == if b.qty > 0.0 then -k else k
  {
    var q, held := ClampedQty(b.qty, f), Abs(b.qty);
    var v := Mean(b.avg, held, f.price, q);
    MovedIsDelta(b, f);
    DivideBack(b.avg * held + f.price * q, held + q);
    GrowthArithmetic(b.avg, f.price, held, q, v);
    var gap := v * (held - q) - b.avg * held + q * f.price;
    if b.qty > 0.0 {
      GrowthSides(v, held, q, b.avg, f.price);
      assert Gap(b, f) == -gap;
    } else {
      GrowthSides(v, held, q, b.avg, f.price);
      assert Gap(b, f) == gap;
    }
  }

  lemma GrowthSides(v: real, held: real, q: real, a: real, p: real)
    ensures v * -(held - q) == -(v * (held - q)) && a * -held == -(a * held) && -q * p == -(q * p)
  {
  }

  /** A reduce-only fill of negative size moves with the book, so a reducing one is not reduce-only. */
  lemma ReducingIsPlain(b: Book, f: Fill)
    requires ClampedQty(b.qty, f) < 0.0 && b.qty != 0.0 && Sign(b.qty) != Sign(Moved(b.qty, f))
    ensures !f.reduceOnly && f.qty < 0.0 && (f.side == "buy" <==> b.qty > 0.0)
  {
  }

  lemma LongChange(p: real, a: real, q: real, m: real, cost: real)
    requires cost == if q + m == 0.0 then 0.0 else a * (q + m)
    ensures cost - a * q - m * p == -((p - a) * m)
  {
    CloseArithmetic(p, a, q, m);
  }

  lemma ShortChange(p: real, a: real, q: real, d: real, cost: real)
    requires cost == if q - d == 0.0 then 0.0 else a * (q - d)
    ensures cost - a * q - -d * p == (p - a) * d
  {
    CloseArithmetic(p, a, q, -d);
    Negates(p - a, d);
  }

  /** What such a fill books, and how it moves the cost basis and the cash. */
  lemma ReducedParts(b: Book, f: Fill)
    requires b.qty != 0.0 && !f.reduceOnly && f.qty < 0.0 && (f.side == "buy" <==> b.qty > 0.0)
    ensures ApplyFill(b, f).gross == Round8(Exact(b, f.price, f.qty))
    ensures Paid(b.qty, f) == (if b.qty > 0.0 then f.qty else -f.qty) * f.price
    ensures var m := if b.qty > 0.0 then f.qty else -f.qty;
      Cost(ApplyFill(b, f).book) == if b.qty + m == 0.0 then 0.0 else b.avg * (b.qty + m)
  {
  }

  lemma ReducedChange(b: Book, price: real, qty: real, cost: real, paid: real)
    requires var m := if b.qty > 0.0 then qty else -qty;
      paid == m * price && cost == if b.qty + m == 0.0 then 0.0 else b.avg * (b.qty + m)
    ensures cost - Cost(b) - paid == -Exact(b, price, qty)
  {
    if b.qty > 0.0 {
      LongChange(price, b.avg, b.qty, qty, cost);
    } else {
      ShortChange(price, b.avg, b.qty, qty, cost);
    }
  }

  /** Reducing by a negative quantity books the profit with the wrong sign. */
  lemma ReducingGap(b: Book, f: Fill)
    requires ClampedQty(b.qty, f) < 0.0 && b.qty != 0.0 && Sign(b.qty) != Sign(Moved(b.qty, f))
    ensures var profit := Exact(b, f.price, ClampedQty(b.qty, f));
      Gap(b, f) == Round8(profit) + profit
  {
    ReducingIsPlain(b, f);
    ReducedParts(b, f);
    ReducedChange(b, f.price, f.qty, Cost(ApplyFill(b, f).book), Paid(b.qty, f));
  }

  /** At some price the gap of an ineffective fill is as large as any bound. */
  lemma IneffectiveDrifts(b: Book, f: Fill, bound: real) returns (price: real)
    requires ClampedQty(b.qty, f) < 0.0 && (b.qty == 0.0 ==> b.avg == 0.0) && bound >= 0.0
    ensures Abs(Gap(b, Priced(f, price))) > bound
  {
    var q, held, m := ClampedQty(b.qty, f), Abs(b.qty), Moved(b.qty, f);
    MovedIsDelta(b, f);
    if b.qty == 0.0 || Sign(b.qty) == Sign(m) {
      if held + q <= 0.0 {
        price := LineReaches(m, -(b.avg * m), bound + 1.0);
        OpeningGap(b, Priced(f, price));
      } else {
        price := GrowthReaches(b, f, bound + 1.0);
      }
    } else {
      price := ReducingReaches(b, f, bound + 1.0);
      ReducingGap(b, Priced(f, price));
    }
  }

  lemma GrowthReaches(b: Book, f: Fill, height: real) returns (price: real)
    requires ClampedQty(b.qty, f) < 0.0 && Abs(b.qty) + ClampedQty(b.qty, f) > 0.0 && height > 0.0
    requires b.qty == 0.0 || Sign(b.qty) == Sign(Moved(b.qty, f))
    ensures Abs(Gap(b, Priced(f, price))) >= height
  {
    var q, held := ClampedQty(b.qty, f), Abs(b.qty);
    var t, k := held + q, 2.0 * q * held;
    assert k != 0.0;
    price := LineReaches(k, -(k * b.avg), height * t);
    assert k * (price - b.avg) == height * t;
    GrowthGap(b, Priced(f, price));
    SameFactor(Gap(b, Priced(f, price)), height, t);
    SameFactor(-Gap(b, Priced(f, price)), height, t);
  }

  lemma SameFactor(x: real, y: real, t: real)
    requires t > 0.0
    ensures x * t == y * t ==> x == y
    ensures x * t == -(-x * t)
  {
    Scale(x, y, t);
    Scale(y, x, t);
  }

  lemma ReducingReaches(b: Book, f: Fill, height: real) returns (price: real)
    requires ClampedQty(b.qty, f) < 0.0 && b.qty != 0.0
    ensures Exact(b, price, ClampedQty(b.qty, f)) == height
  {
    var q := ClampedQty(b.qty, f);
    var slope := if b.qty > 0.0 then q else -q;
    price := LineReaches(slope, -(slope * b.avg), height);
    assert slope * price + -(slope * b.avg) == slope * (price - b.avg);
    Negates(price - b.avg, q);
  }

  /**
   Exactly when one fill balances at every price: its quantity, after the reduce-only
   clamp, is not negative.
   */
  lemma BalancesExactly(b: Book, f: Fill)
    requires b.qty == 0.0 ==> b.avg == 0.0
    ensures (forall price :: Balances(b, Priced(f, price))) <==> ClampedQty(b.qty, f) >= 0.0
  {
    if ClampedQty(b.qty, f) < 0.0 {
      var price := IneffectiveDrifts(b, f, 1.0);
      assert !Balances(b, Priced(f, price));
    } else {
      forall price
        ensures Balances(b, Priced(f, price))
      {
        FillBalance(b, Priced(f, price));
      }
    }
  }

  // ----- A list of fills -----

  /** The same fills at other prices. */
  ghost predicate SameButPrices(a: seq<Fill>, b: seq<Fill>) {
    |a| == |b| && forall i :: 0 <= i < |a| ==> b[i] == Priced(a[i], b[i].price)
  }

  lemma PayIgnoresPrice(l: Ledger, l': Ledger, f: Fill, price: real)
    requires l.net == l'.net && l.reductions == l'.reductions
    ensures Pay(l, f).net == Pay(l', Priced(f, price)).net
    ensures Pay(l, f).reductions == Pay(l', Priced(f, price)).reductions
  {
  }

  lemma {:induction false} LedgerIgnoresPrices(a: seq<Fill>, b: seq<Fill>)
    requires SameButPrices(a, b)
    ensures LedgerOf(a).net == LedgerOf(b).net && LedgerOf(a).reductions == LedgerOf(b).reductions
  {
    if a != [] {
      var n := |a| - 1;
      LedgerIgnoresPrices(a[..n], b[..n]);
      assert b[n] == Priced(a[n], b[n].price);
      PayIgnoresPrice(LedgerOf(a[..n]), LedgerOf(b[..n]), a[n], b[n].price);
    }
  }

  lemma EffectIgnoresPrices(a: seq<Fill>, b: seq<Fill>, i: nat)
    requires SameButPrices(a, b) && i < |a|
    ensures EffectiveAt(a, i) == EffectiveAt(b, i)
  {
    LedgerIgnoresPrices(a[..i], b[..i]);
    assert b[i] == Priced(a[i], b[i].price);
  }

  /** The identity after every fill of the list. */
  ghost predicate HoldsThroughout(fills: seq<Fill>, seed: real) {
    forall n :: 0 <= n <= |fills| ==> HoldsAfter(fills, seed, n)
  }

  ghost predicate HoldsAfter(fills: seq<Fill>, seed: real, n: nat)
    requires n <= |fills|
  {
    WithinRounding(Run(fills[..n], seed), seed, LedgerOf(fills[..n]))
  }

  lemma EffectiveHolds(fills: seq<Fill>, seed: real)
    requires Effective(fills)
    ensures HoldsThroughout(fills, seed)
  {
    forall n | 0 <= n <= |fills|
      ensures HoldsAfter(fills, seed, n)
    {
      EffectivePrefix(fills, n);
      EquityIsCashPlusBasis(fills[..n], seed);
    }
  }

  /** A gap larger than the slack on both sides breaks the identity. */
  lemma WideGapBreaks(a: Account, seed: real, l: Ledger, f: Fill)
    requires Agree(a.books, l.net) && WithinRounding(a, seed, l)
    requires Abs(Gap(BookOf(a.books, f.symbol), f)) > 0.00000001 * (l.reductions + 1) as real
    ensures !WithinRounding(Post(a, f), seed, Pay(l, f))
  {
    AgreeAt(a.books, l.net, f.symbol);
    var b := BookOf(a.books, f.symbol);
    var r := ApplyFill(b, f);
    BasisUpdate(a.books, f.symbol, r.book);
    GapShows(a, Post(a, f), l, Pay(l, f), seed, Gap(b, f));
  }

  lemma GapShows(a: Account, a': Account, l: Ledger, l': Ledger, seed: real, gap: real)
    requires WithinRounding(a, seed, l) && l.reductions <= l'.reductions <= l.reductions + 1
    requires a'.equity - l'.cash - Total(Basis(a'.books)) == a.equity - l.cash - Total(Basis(a.books)) + gap
    requires Abs(gap) > 0.00000001 * (l.reductions + 1) as real
    ensures !WithinRounding(a', seed, l')
  {
  }

  lemma FirstIneffective(fills: seq<Fill>) returns (i: nat)
    requires !Effective(fills)
    ensures i < |fills| && !EffectiveAt(fills, i) && Effective(fills[..i])
  {
    i := 0;
    while EffectiveAt(fills, i)
      invariant i < |fills| && forall k :: 0 <= k < i ==> EffectiveAt(fills, k)
      invariant exists k :: i <= k < |fills| && !EffectiveAt(fills, k)
      decreases |fills| - i
    {
      i := i + 1;
    }
    forall k | 0 <= k < i
      ensures EffectiveAt(fills[..i], k)
    {
      assert fills[..i][..k] == fills[..k] && EffectiveAt(fills, k);
    }
  }

  lemma IneffectiveBreaks(fills: seq<Fill>, seed: real) returns (priced: seq<Fill>)
    requires !Effective(fills)
    ensures SameButPrices(fills, priced) && !HoldsThroughout(priced, seed)
  {
    var i := FirstIneffective(fills);
    var before, f := fills[..i], fills[i];
    var a, l := Run(before, seed), LedgerOf(before);
    BooksMatchLedger(before, seed);
    EquityIsCashPlusBasis(before, seed);
    AgreeAt(a.books, l.net, f.symbol);
    var price := IneffectiveDrifts(BookOf(a.books, f.symbol), f, 0.00000001 * (l.reductions + 1) as real);
    priced := fills[i := Priced(f, price)];
    WideGapBreaks(a, seed, l, Priced(f, price));
    assert priced[..i + 1][..i] == before && priced[..i + 1][i] == Priced(f, price);
    assert !HoldsAfter(priced, seed, i + 1);
  }

  /**
   Exactly when the accounting identity holds after every fill, whatever the prices: each
   quantity, after the reduce-only clamp on what the ledger holds, is not negative.
   */
  lemma IdentityHoldsExactly(fills: seq<Fill>, seed: real)
    ensures (forall priced :: SameButPrices(fills, priced) ==> HoldsThroughout(priced, seed)) <==> Effective(fills)
  {
    if Effective(fills) {
      forall priced | SameButPrices(fills, priced)
        ensures HoldsThroughout(priced, seed)
      {
        forall i | 0 <= i < |priced|
          ensures EffectiveAt(priced, i)
        {
          EffectIgnoresPrices(fills, priced, i);
        }
        EffectiveHolds(priced, seed);
      }
    } else {
      var priced := IneffectiveBreaks(fills, seed);
    }
  }
}
