/**
 The formats and constants of the backtest written out: decimal texts and their values,
 symbols, intervals, and the clock of the replay in milliseconds.
 */
module BacktestWritten {
  import opened Wrappers
  import opened Backtest
  import opened BacktestReplay

  // ----- Decimal text -----

  predicate AllDigits(s: string) {
    forall c :: c in s ==> c in "0123456789"
  }

  lemma DigitsExactly(s: string)
    ensures Digits(s) <==> s != "" && AllDigits(s)
  {
    forall c: char
      ensures '0' <= c <= '9' <==> c in "0123456789"
    {
      OneDigit(c);
    }
    if s != "" && AllDigits(s) {
      forall i | 0 <= i < |s|
        ensures '0' <= s[i] <= '9'
      {
        assert s[i] in s;
      }
    }
  }

  lemma OneDigit(c: char)
    ensures '0' <= c <= '9' <==> c in "0123456789"
  {
    if '0' <= c <= '9' {
      assert "0123456789"[c as int - '0' as int] == c;
    }
  }

  /** The digits before the point. */
  predicate IsWhole(w: string) {
    w != "" && AllDigits(w) && (w[0] == '0' ==> w == "0")
  }

  lemma {:induction false} WholeLengthIs(w: string, rest: string)
    requires '.' !in w && (rest != "" ==> rest[0] == '.')
    ensures WholeLength(w + rest) == |w|
  {
    if w == "" {
      assert w + rest == rest;
    } else {
      assert (w + rest)[1..] == w[1..] + rest;
      WholeLengthIs(w[1..], rest);
    }
  }

  /** A text is in the strict form exactly when it is such digits, or those, a point and more digits; at most 34 in all. */
  lemma StrictExactly(s: string)
    ensures Strict(s) <==> |s| <= 34 && exists n: nat :: n <= |s| && SplitsAt(s, n)
  {
    var n := WholeLength(s);
    DigitsExactly(s[..n]);
    if n < |s| {
      DigitsExactly(s[n + 1..]);
    }
    if Strict(s) {
      assert SplitsAt(s, n);
    }
    if m: nat :| m <= |s| && SplitsAt(s, m) {
      assert s == s[..m] + s[m..];
      assert '.' !in s[..m] by {
        OneDigit('.');
      }
      WholeLengthIs(s[..m], s[m..]);
    }
  }

  predicate SplitsAt(s: string, n: nat)
    requires n <= |s|
  {
    IsWhole(s[..n]) && (n < |s| ==> s[n] == '.' && s[n + 1..] != "" && AllDigits(s[n + 1..]))
  }

  function Pow10(n: nat): int {
    if n == 0 then 1 else 10 * Pow10(n - 1)
  }

  lemma {:induction false} WholeFromTheFront(s: string)
    requires s != ""
    ensures Whole(s) == (s[0] as int - '0' as int) * Pow10(|s| - 1) + Whole(s[1..])
  {
    if |s| > 1 {
      var n := |s| - 1;
      WholeFromTheFront(s[..n]);
      assert s[..n][1..] == s[1..][..n - 1];
      FrontTimesTen(s[0] as int - '0' as int, Pow10(n - 1));
    } else {
      assert s[..0] == "" && s[1..] == "";
    }
  }

  lemma FrontTimesTen(d: int, p: int)
    ensures d * p * 10 == d * (10 * p)
  {
  }

  /** A scaled-up fraction is the whole number w. */
  predicate ScalesTo(f: real, scale: int, w: int) {
    f * scale as real == w as real
  }

  lemma {:induction false} FractionIsScaled(s: string)
    ensures ScalesTo(Fraction(s), Pow10(|s|), Whole(s))
  {
    if s == "" {
      assert Whole(s) == 0 && Fraction(s) == 0.0;
    } else {
      FractionIsScaled(s[1..]);
      WholeFromTheFront(s);
      ShiftedFraction(s[0] as int - '0' as int, Fraction(s), Fraction(s[1..]), Pow10(|s|), Pow10(|s| - 1),
                      Whole(s), Whole(s[1..]));
    }
  }

  lemma ShiftedFraction(d: int, f: real, rest: real, p: int, q: int, w: int, v: int)
    requires f == (d as real + rest) / 10.0 && p == 10 * q && w == d * q + v && ScalesTo(rest, q, v)
    ensures ScalesTo(f, p, w)
  {
    ShiftsTheFraction(d, rest, q, v);
  }

  lemma ShiftsTheFraction(d: int, f: real, p: int, rest: int)
    requires f * p as real == rest as real
    ensures (d as real + f) / 10.0 * (10 * p) as real == (d * p + rest) as real
  {
    var x, y := d as real, p as real;
    assert (10 * p) as real == 10.0 * y;
    assert (d * p) as real == x * y by {
      CastTimes(d, p);
    }
    assert (x + f) / 10.0 * (10.0 * y) == (x + f) * y;
    assert (x + f) * y == x * y + f * y;
  }

  lemma CastTimes(d: int, p: int)
    ensures (d * p) as real == d as real * p as real
  {
  }

  /** A decimal text without its point is its value times the power of ten of its decimals. */
  lemma ValueIsItsDigits(w: string, f: string)
    requires AllDigits(w) && AllDigits(f)
    ensures Value(w) == Whole(w) as real
    ensures Value(w + "." + f) == Whole(w) as real + Fraction(f) && ScalesTo(Fraction(f), Pow10(|f|), Whole(f))
  {
    OneDigit('.');
    WholeLengthIs(w, "");
    assert w + "" == w;
    var s := w + "." + f;
    assert s == w + ("." + f);
    WholeLengthIs(w, "." + f);
    assert s[..|w|] == w && s[|w| + 1..] == f;
    FractionIsScaled(f);
    if f == "" {
      assert Fraction(f) == 0.0;
    }
  }

  // ----- Symbols and intervals -----

  /** Capitals are the characters 65 to 90, digits 48 to 57. */
  predicate IsCode(s: string, most: nat) {
    2 <= |s| <= most && forall i :: 0 <= i < |s| ==> 65 <= s[i] as int <= 90 || 48 <= s[i] as int <= 57
  }

  lemma CodeExactly(s: string, most: nat)
    ensures Code(s, most) <==> IsCode(s, most)
  {
  }

  predicate SlashAt(s: string, n: nat)
    requires n < |s|
  {
    s[n] == '/' && Code(s[..n], 15) && Code(s[n + 1..], 10)
  }

  /** A canonical symbol is a base of 2 to 15 capitals and digits, a slash, and a quote of 2 to 10. */
  lemma CanonicalExactly(s: string)
    ensures Canonical(s)
            <==> exists n: nat :: n < |s| && s[n] == '/' && IsCode(s[..n], 15) && IsCode(s[n + 1..], 10)
  {
    forall n: nat | n < |s|
      ensures SlashAt(s, n) <==> s[n] == '/' && IsCode(s[..n], 15) && IsCode(s[n + 1..], 10)
    {
      CodeExactly(s[..n], 15);
      CodeExactly(s[n + 1..], 10);
    }
    if n: nat :| n < |s| && s[n] == '/' && IsCode(s[..n], 15) && IsCode(s[n + 1..], 10) {
      assert SlashAt(s, n);
    }
    if Canonical(s) {
      var n :| 0 <= n < |s| && s[n] == '/' && Code(s[..n], 15) && Code(s[n + 1..], 10);
      assert SlashAt(s, n);
    }
  }

  /** The five decimals of a candle. */
  predicate DecimalsAreStrict(k: Kline) {
    Strict(k.open) && Strict(k.high) && Strict(k.low) && Strict(k.close) && Strict(k.volume)
  }

  /**
   A dataset is well formed exactly with one canonical symbol, one legal interval and strict
   decimals throughout, and with open times that rise by whole intervals.
   */
  lemma DatasetExactly(ks: seq<Kline>)
    ensures WellFormed(ks)
            <==> && (forall i :: 0 <= i < |ks| ==> ks[i].symbol == ks[0].symbol && ks[i].interval == ks[0].interval)
                 && (forall i :: 0 <= i < |ks| ==> DecimalsAreStrict(ks[i]))
                 && (forall i, j :: 0 <= i < j < |ks| ==> ks[i].openTime < ks[j].openTime)
                 && (ks != [] ==> Canonical(ks[0].symbol) && IntervalMs(ks[0].interval) > 0)
                 && forall i :: 0 <= i < |ks| ==> (ks[i].openTime - ks[0].openTime) % IntervalMs(ks[0].interval) == 0
  {
    if ks != [] && IntervalMs(ks[0].interval) > 0 {
      assert forall i :: 0 <= i < |ks| ==>
        OnGrid(ks[i].openTime, ks[0].openTime, IntervalMs(ks[0].interval))
        == ((ks[i].openTime - ks[0].openTime) % IntervalMs(ks[0].interval) == 0);
    }
  }

  /** Every interval is as many minutes, hours or days as its name says, and there are no others. */
  lemma IntervalsAreTheirNames(interval: string)
    ensures IntervalMs("1m") == 1 * 60 * 1000 && IntervalMs("3m") == 3 * 60 * 1000 && IntervalMs("5m") == 5 * 60 * 1000
    ensures IntervalMs("15m") == 15 * 60 * 1000 && IntervalMs("30m") == 30 * 60 * 1000
    ensures IntervalMs("1h") == 3600 * 1000 && IntervalMs("2h") == 2 * 3600 * 1000 && IntervalMs("4h") == 4 * 3600 * 1000
    ensures IntervalMs("6h") == 6 * 3600 * 1000 && IntervalMs("8h") == 8 * 3600 * 1000
    ensures IntervalMs("12h") == 12 * 3600 * 1000 && IntervalMs("1d") == 24 * 3600 * 1000
    ensures IntervalMs(interval) > 0
            <==> interval in ["1m", "3m", "5m", "15m", "30m", "1h", "2h", "4h", "6h", "8h", "12h", "1d"]
  {
  }

  // ----- The clock -----

  /** A decision is made one second after the close of its slot. */
  lemma DecidesASecondLater(ks: seq<Kline>, ivl: int, tick: int)
    requires |ks| > 0
    ensures DecisionTime(ks, ivl, tick) == ks[0].openTime + (tick + 1) * ivl + 1000
  {
  }

  /** One line per tick, in order: of this strategy and symbol, created a second after its slot closes. */
  lemma AlignedExactly(lines: seq<ProposalLine>, spec: Spec, ks: seq<Kline>, ivl: int)
    requires |ks| > 0 && ivl > 0
    ensures Aligned(lines, spec, ks, ivl)
            <==> && |lines| == (ks[|ks| - 1].openTime - ks[0].openTime) / ivl + 1
                 && forall i :: 0 <= i < |lines| ==>
                      && lines[i].tick == Some(i) && lines[i].strategy == spec.strategy && lines[i].symbol == spec.symbol
                      && lines[i].createdAt == ks[0].openTime + (i + 1) * ivl + 1000
  {
    forall i | 0 <= i < |lines|
      ensures DecisionTime(ks, ivl, i) == ks[0].openTime + (i + 1) * ivl + 1000
    {
      DecidesASecondLater(ks, ivl, i);
    }
  }

  /** A candle can be pumped exactly with strict prices and open and close inside low and high. */
  lemma OhlcExactly(k: Kline)
    ensures Ohlc(k) <==> && Strict(k.open) && Strict(k.high) && Strict(k.low) && Strict(k.close)
                         && Value(k.low) <= Value(k.open) <= Value(k.high) && Value(k.low) <= Value(k.close) <= Value(k.high)
  {
  }

  /** A mark is usable from five seconds before its time to the freshness bound after it. */
  lemma UsableExactly(t: Tick, now: int, maxAge: int)
    ensures Usable(t, now, maxAge) <==> t.ts - 5000 <= now <= t.ts + maxAge
  {
  }

  /** A run specification: a canonical symbol, a legal interval, and an age bound from one second to the interval. */
  lemma SpecExactly(s: Spec)
    ensures ValidSpec(s) <==> Canonical(s.symbol) && IntervalMs(s.interval) > 0
                              && 1000 <= s.maxAge * 1000 <= IntervalMs(s.interval)
  {
  }

  // ----- A whole run -----

  /** The four sweeps of a candle: its open, the extreme against it, the other one, its close. */
  predicate FourSweeps(k: Kline, ivl: int, tick: int, e: Effects) {
    var o, h, l, c, t := Value(k.open), Value(k.high), Value(k.low), Value(k.close), k.openTime;
    && e.sweeps(tick, SubTick("open", o, t))
    && e.sweeps(tick, if c < o then SubTick("high", h, t + ivl / 4) else SubTick("low", l, t + ivl / 4))
    && e.sweeps(tick, if c < o then SubTick("low", l, t + ivl / 2) else SubTick("high", h, t + ivl / 2))
    && e.sweeps(tick, SubTick("close", c, t + ivl))
  }

  lemma PumpsExactly(ks: seq<Kline>, ivl: int, e: Effects, i: nat)
    requires i < |ks| && ivl > 0
    ensures PumpOk(ks, ivl, e, i) <==> Ohlc(ks[i]) && FourSweeps(ks[i], ivl, (ks[i].openTime - ks[0].openTime) / ivl, e)
  {
    var k, tick := ks[i], Slot(ks, ivl, i);
    assert PumpOk(ks, ivl, e, i) <==>
      && Ohlc(k) && e.sweeps(tick, SubTickOf(k, ivl, 0)) && e.sweeps(tick, SubTickOf(k, ivl, 1))
      && e.sweeps(tick, SubTickOf(k, ivl, 2)) && e.sweeps(tick, SubTickOf(k, ivl, 3));
  }

  /** A tick is decided on the close of the candle that opened at its grid time, and on no mark without one. */
  lemma MarkExactly(ks: seq<Kline>, ivl: int, tick: int)
    requires ivl > 0 && Valid(ks, ivl)
    ensures forall i :: 0 <= i < |ks| && ks[i].openTime == ks[0].openTime + tick * ivl ==>
      MarkAt(ks, ivl, tick) == Some(Value(ks[i].close))
    ensures (forall i :: 0 <= i < |ks| ==> ks[i].openTime != ks[0].openTime + tick * ivl) ==> MarkAt(ks, ivl, tick) == None
  {
    forall i | 0 <= i < |ks|
      ensures ks[i].openTime == ks[0].openTime + tick * ivl <==> Slot(ks, ivl, i) == tick
    {
      AtGridWhenSlot(ks, ivl, i, tick);
    }
    forall i, j | 0 <= i < j < |ks|
      ensures Slot(ks, ivl, i) < Slot(ks, ivl, j)
    {
      SlotsAscend(ks, ivl, i, j);
    }
  }

  /**
   A replay completes exactly when every candle is consistent and all its sweeps succeed,
   and every tick's evaluation does, one second after its close and on its own mark.
   */
  lemma CompletesExactly(ks: seq<Kline>, ivl: int, e: Effects)
    requires ivl > 0 && |ks| > 0 && Valid(ks, ivl)
    ensures var ticks := (ks[|ks| - 1].openTime - ks[0].openTime) / ivl + 1;
      CleanUpTo(ks, ivl, e, Ticks(ks, ivl))
      <==> && (forall i :: 0 <= i < |ks| ==>
                 Ohlc(ks[i]) && FourSweeps(ks[i], ivl, (ks[i].openTime - ks[0].openTime) / ivl, e))
           && forall tick :: 0 <= tick < ticks ==>
                e.evaluates(tick, ks[0].openTime + (tick + 1) * ivl + 1000, MarkAt(ks, ivl, tick))
  {
    forall i | 0 <= i < |ks|
      ensures Slot(ks, ivl, i) < Ticks(ks, ivl)
      ensures PumpOk(ks, ivl, e, i)
              <==> Ohlc(ks[i]) && FourSweeps(ks[i], ivl, (ks[i].openTime - ks[0].openTime) / ivl, e)
    {
      SlotsSpanTicks(ks, ivl, i);
      PumpsExactly(ks, ivl, e, i);
    }
    forall tick
      ensures EvaluateOk(ks, ivl, e, tick)
              <==> e.evaluates(tick, ks[0].openTime + (tick + 1) * ivl + 1000, MarkAt(ks, ivl, tick))
    {
      DecidesASecondLater(ks, ivl, tick);
    }
  }
}
