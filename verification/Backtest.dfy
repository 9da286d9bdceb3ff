/**
 The backtest clock: a validated, possibly gapped candle series, its four sub-ticks
 per candle, the last-mark cache, and the replay loop. Times are milliseconds.
 */
module Backtest {
  import opened Wrappers

  // ----- Decimal text -----

  predicate Digits(s: string) {
    s != [] && forall i :: 0 <= i < |s| ==> '0' <= s[i] <= '9'
  }

  /** Characters before the first point. */
  function WholeLength(s: string): (n: nat)
    ensures n <= |s| && '.' !in s[..n] && (n < |s| ==> s[n] == '.')
  {
    if s == [] || s[0] == '.' then 0
    else
      var n := 1 + WholeLength(s[1..]);
      assert s[..n] == [s[0]] + s[1..][..n - 1];
      n
  }

  /** The strict form: no sign, no exponent, no leading zero, at most 34 characters. */
  predicate Strict(s: string) {
    var n := WholeLength(s);
    && |s| <= 34 && Digits(s[..n]) && (s[0] == '0' ==> n == 1)
    && (n < |s| ==> Digits(s[n + 1..]))
  }

  function Whole(s: string): int {
    if s == [] then 0 else Whole(s[..|s| - 1]) * 10 + (s[|s| - 1] as int - '0' as int)
  }

  function Fraction(s: string): real {
    if s == [] then 0.0 else ((s[0] as int - '0' as int) as real + Fraction(s[1..])) / 10.0
  }

  function Value(s: string): real {
    var n := WholeLength(s);
    Whole(s[..n]) as real + if n < |s| then Fraction(s[n + 1..]) else 0.0
  }

  // ----- Lines -----

  /** A dataset line; the prices and the volume are decimal texts. */
  datatype Kline = Kline(symbol: string, interval: string, openTime: int,
                         open: string, high: string, low: string, close: string, volume: string)
  {
    predicate Priced() {
      Strict(open) && Strict(high) && Strict(low) && Strict(close)
    }

    predicate Parses() {
      Priced() && Strict(volume)
    }

    function O(): real { Value(open) }
    function H(): real { Value(high) }
    function L(): real { Value(low) }
    function C(): real { Value(close) }
  }

  const SECOND := 1000

  /** Duration of a legal interval in seconds. */
  function IntervalSeconds(interval: string): (d: Option<int>)
    ensures d.Some? ==> d.value > 0
  {
    match interval
    case "1m" => Some(60)
    case "3m" => Some(180)
    case "5m" => Some(300)
    case "15m" => Some(900)
    case "30m" => Some(1800)
    case "1h" => Some(3600)
    case "2h" => Some(7200)
    case "4h" => Some(14400)
    case "6h" => Some(21600)
    case "8h" => Some(28800)
    case "12h" => Some(43200)
    case "1d" => Some(86400)
    case _ => None
  }

  function IntervalMs(interval: string): (d: int)
    ensures d > 0 <==> IntervalSeconds(interval).Some?
  {
    var d := IntervalSeconds(interval);
    if d.Some? then d.value * SECOND else 0
  }

  predicate Code(s: string, most: nat) {
    2 <= |s| <= most && forall i :: 0 <= i < |s| ==> 'A' <= s[i] <= 'Z' || '0' <= s[i] <= '9'
  }

  /** BASE/QUOTE in capitals and digits. */
  predicate Canonical(symbol: string) {
    exists n | 0 <= n < |symbol| :: symbol[n] == '/' && Code(symbol[..n], 15) && Code(symbol[n + 1..], 10)
  }

  // ----- Dataset -----

  /** Strictly ascending open times on the grid of the first candle. */
  ghost predicate Valid(ks: seq<Kline>, ivl: int)
    requires ivl > 0
  {
    && (forall i, j :: 0 <= i < j < |ks| ==> ks[i].openTime < ks[j].openTime)
    && (forall i :: 0 <= i < |ks| ==> OnGrid(ks[i].openTime, ks[0].openTime, ivl))
  }

  predicate OnGrid(time: int, first: int, ivl: int)
    requires ivl > 0
  {
    (time - first) % ivl == 0
  }

  /** One canonical symbol, one legal interval, strict decimals, and a valid grid. */
  ghost predicate WellFormed(ks: seq<Kline>) {
    && (forall i :: 0 <= i < |ks| ==> Matches(ks[i], ks[0]) && ks[i].Parses())
    && (ks != [] ==> Canonical(ks[0].symbol) && IntervalMs(ks[0].interval) > 0 && Valid(ks, IntervalMs(ks[0].interval)))
  }

  predicate Matches(k: Kline, first: Kline) {
    k.symbol == first.symbol && k.interval == first.interval
  }

  lemma ValidPush(ks: seq<Kline>, k: Kline, ivl: int)
    requires ivl > 0 && Valid(ks, ivl)
    ensures Valid(ks + [k], ivl)
            <==> (|ks| > 0 ==> k.openTime > ks[|ks| - 1].openTime && OnGrid(k.openTime, ks[0].openTime, ivl))
  {
    var all, n := ks + [k], |ks|;
    assert all[n] == k && forall i :: 0 <= i < n ==> all[i] == ks[i];
    assert OnGrid(all[0].openTime, all[0].openTime, ivl);
    if n > 0 && k.openTime > ks[n - 1].openTime {
      forall i | 0 <= i < n
        ensures all[i].openTime < all[n].openTime
      {
      }
    }
  }

  lemma ValidPrefix(ks: seq<Kline>, n: nat, ivl: int)
    requires ivl > 0 && Valid(ks, ivl) && n <= |ks|
    ensures Valid(ks[..n], ivl)
  {
  }

  /** A later line is accepted when it matches, parses, and stands on the grid after the last. */
  lemma WellFormedPush(ks: seq<Kline>, k: Kline)
    requires WellFormed(ks) && ks != []
    ensures WellFormed(ks + [k])
            <==> && Matches(k, ks[0]) && k.Parses() && k.openTime > ks[|ks| - 1].openTime
                 && OnGrid(k.openTime, ks[0].openTime, IntervalMs(ks[0].interval))
  {
    var all := ks + [k];
    assert all[|ks|] == k && all[0] == ks[0];
    assert forall i :: 0 <= i < |ks| ==> all[i] == ks[i];
    ValidPush(ks, k, IntervalMs(ks[0].interval));
  }

  lemma WellFormedFirst(k: Kline)
    ensures WellFormed([k]) <==> Canonical(k.symbol) && IntervalSeconds(k.interval).Some? && k.Parses()
  {
    assert [k][0] == k;
    if IntervalMs(k.interval) > 0 {
      assert [k] == [] + [k];
      ValidPush([], k, IntervalMs(k.interval));
    }
  }

  lemma WellFormedPrefix(ks: seq<Kline>, n: nat)
    requires n <= |ks|
    ensures WellFormed(ks) ==> WellFormed(ks[..n])
  {
    if n > 0 && WellFormed(ks) {
      ValidPrefix(ks, n, IntervalMs(ks[0].interval));
    }
  }

  /** The checked decimal texts of a line. */
  function Text(k: Kline, i: int): string {
    if i == 0 then k.open else if i == 1 then k.high else if i == 2 then k.low else if i == 3 then k.close else k.volume
  }

  method DecimalsParse(k: Kline) returns (ok: bool)
    ensures ok <==> k.Parses()
  {
    for i := 0 to 5
      invariant forall j :: 0 <= j < i ==> Strict(Text(k, j))
    {
      if !Strict(Text(k, i)) {
        return false;
      }
    }
    assert Strict(Text(k, 0)) && Strict(Text(k, 1)) && Strict(Text(k, 2)) && Strict(Text(k, 3)) && Strict(Text(k, 4));
    ok := true;
  }

  class Dataset {
    var symbol: string
    var interval: string
    var klines: seq<Kline>

    ghost predicate Sound()
      reads this
    {
      WellFormed(klines) && (klines != [] ==> symbol == klines[0].symbol && interval == klines[0].interval)
    }

    constructor ()
      ensures klines == [] && Sound()
    {
      symbol, interval, klines := "", "", [];
    }

    /**
     The line-by-line check of a dataset file. A first line names the symbol and the
     interval before its decimals are read.
     */
    method AppendValidated(k: Kline) returns (ok: bool)
      requires Sound()
      modifies this
      ensures Sound()
      ensures ok <==> WellFormed(old(klines) + [k])
      ensures klines == if ok then old(klines) + [k] else old(klines)
      ensures (symbol, interval)
        == if old(klines) == [] && Canonical(k.symbol) && IntervalSeconds(k.interval).Some?
           then (k.symbol, k.interval) else old((symbol, interval))
    {
      var n := |klines|;
      if n == 0 {
        assert klines + [k] == [k];
        WellFormedFirst(k);
        if !Canonical(k.symbol) || IntervalSeconds(k.interval).None? {
          return false;
        }
        symbol, interval := k.symbol, k.interval;
      } else {
        WellFormedPush(klines, k);
        if k.symbol != symbol || k.interval != interval {
          return false;
        }
        if k.openTime <= klines[n - 1].openTime {
          return false;
        }
        if !OnGrid(k.openTime, klines[0].openTime, IntervalMs(interval)) {
          return false;
        }
      }
      ok := DecimalsParse(k);
      if !ok {
        return;
      }
      klines := klines + [k];
    }
  }

  lemma OneMore(lines: seq<Kline>, n: nat)
    requires n < |lines|
    ensures lines[..n] + [lines[n]] == lines[..n + 1]
    ensures WellFormed(lines) ==> WellFormed(lines[..n] + [lines[n]])
  {
    assert lines[..n] + [lines[n]] == lines[..n + 1];
    WellFormedPrefix(lines, n + 1);
  }

  /** Reads a whole file: accepted exactly when it has a line and all of it is well formed. */
  method ReadDataset(lines: seq<Kline>) returns (ds: Option<Dataset>)
    ensures ds.Some? <==> lines != [] && WellFormed(lines)
    ensures ds.Some? ==> fresh(ds.value) && ds.value.Sound() && ds.value.klines == lines
  {
    var read := new Dataset();
    var n, ok := 0, true;
    while ok && n < |lines|
      invariant 0 <= n <= |lines| && fresh(read) && read.Sound()
      invariant if ok then read.klines == lines[..n] else !WellFormed(lines)
      decreases ok, |lines| - n
    {
      OneMore(lines, n);
      ok := read.AppendValidated(lines[n]);
      n := n + 1;
    }
    assert lines[..|lines|] == lines;
    ds := if ok && lines != [] then Some(read) else None;
  }

  /** One decision tick per grid slot from the first through the last candle. */
  function Ticks(ks: seq<Kline>, ivl: int): int
    requires |ks| > 0 && ivl > 0
  {
    (ks[|ks| - 1].openTime - ks[0].openTime) / ivl + 1
  }

  function TickOf(ks: seq<Kline>, ivl: int, openTime: int): int
    requires |ks| > 0 && ivl > 0
  {
    (openTime - ks[0].openTime) / ivl
  }

  function GridOpen(ks: seq<Kline>, ivl: int, tick: int): int
    requires |ks| > 0
  {
    ks[0].openTime + tick * ivl
  }

  /** Slot of the i-th candle. */
  function Slot(ks: seq<Kline>, ivl: int, i: nat): int
    requires i < |ks| && ivl > 0
  {
    TickOf(ks, ivl, ks[i].openTime)
  }

  lemma ScaleKeepsOrder(a: int, b: int, d: int)
    requires d > 0
    ensures a < b <==> a * d < b * d
    ensures a == b <==> a * d == b * d
  {
  }

  /** A candle opens exactly at its own slot. */
  lemma OnItsSlot(ks: seq<Kline>, ivl: int, i: nat)
    requires i < |ks| && ivl > 0 && Valid(ks, ivl)
    ensures ks[i].openTime == GridOpen(ks, ivl, Slot(ks, ivl, i))
  {
    assert OnGrid(ks[i].openTime, ks[0].openTime, ivl);
  }

  lemma SlotsAscend(ks: seq<Kline>, ivl: int, i: nat, j: nat)
    requires i < j < |ks| && ivl > 0 && Valid(ks, ivl)
    ensures Slot(ks, ivl, i) < Slot(ks, ivl, j)
  {
    OnItsSlot(ks, ivl, i);
    OnItsSlot(ks, ivl, j);
    ScaleKeepsOrder(Slot(ks, ivl, i), Slot(ks, ivl, j), ivl);
  }

  /** The slots run from zero to the last tick. */
  lemma SlotsSpanTicks(ks: seq<Kline>, ivl: int, i: nat)
    requires i < |ks| && ivl > 0 && Valid(ks, ivl)
    ensures Slot(ks, ivl, 0) == 0 && Slot(ks, ivl, |ks| - 1) == Ticks(ks, ivl) - 1
    ensures 0 <= Slot(ks, ivl, i) < Ticks(ks, ivl)
  {
    if 0 < i {
      SlotsAscend(ks, ivl, 0, i);
    }
    if i < |ks| - 1 {
      SlotsAscend(ks, ivl, i, |ks| - 1);
    }
  }

  /** A candle opens at a tick's grid time exactly when the tick is its slot. */
  lemma AtGridWhenSlot(ks: seq<Kline>, ivl: int, i: nat, tick: int)
    requires i < |ks| && ivl > 0 && Valid(ks, ivl)
    ensures ks[i].openTime == GridOpen(ks, ivl, tick) <==> Slot(ks, ivl, i) == tick
  {
    OnItsSlot(ks, ivl, i);
    ScaleKeepsOrder(Slot(ks, ivl, i), tick, ivl);
  }

  // ----- Sub-ticks -----

  datatype SubTick = SubTick(leg: string, mark: real, ts: int)

  predicate Ohlc(k: Kline) {
    k.Priced() && k.L() <= k.O() && k.L() <= k.C() && k.H() >= k.O() && k.H() >= k.C()
  }

  function Price(k: Kline, leg: string): real {
    if leg == "open" then k.O() else if leg == "low" then k.L() else if leg == "high" then k.H() else k.C()
  }

  /** The four in order: the adverse extreme of a rising candle is its low, of a falling one its high. */
  function SubTickOf(k: Kline, ivl: int, leg: int): SubTick {
    if leg == 0 then SubTick("open", k.O(), k.openTime)
    else if leg == 3 then SubTick("close", k.C(), k.openTime + ivl)
    else
      var ts := k.openTime + if leg == 1 then ivl / 4 else ivl / 2;
      if (k.C() < k.O()) == (leg == 1) then SubTick("high", k.H(), ts) else SubTick("low", k.L(), ts)
  }

  /** Four mark writes: open first, close last at the close time, the adverse extreme before the other. */
  method SubTicks(k: Kline, ivl: int) returns (out: Option<seq<SubTick>>)
    requires ivl > 0
    ensures out.Some? <==> Ohlc(k)
    ensures out.Some? ==> |out.value| == 4 && forall i :: 0 <= i < 4 ==> out.value[i] == SubTickOf(k, ivl, i)
    ensures out.Some? ==>
      && out.value[0] == SubTick("open", k.O(), k.openTime)
      && out.value[3] == SubTick("close", k.C(), k.openTime + ivl)
      && {out.value[1].mark, out.value[2].mark} == {k.L(), k.H()}
      && (k.C() >= k.O() ==> out.value[1].mark == k.L()) && (k.C() < k.O() ==> out.value[1].mark == k.H())
      && out.value[1].ts == k.openTime + ivl / 4 && out.value[2].ts == k.openTime + ivl / 2
      && (out.value[1].leg == "low" <==> k.C() >= k.O()) && {out.value[1].leg, out.value[2].leg} == {"low", "high"}
      && (forall i :: 0 <= i < 4 ==> k.L() <= out.value[i].mark <= k.H())
      && (forall i, j :: 0 <= i < j < 4 ==> out.value[i].ts <= out.value[j].ts)
  {
    if !k.Priced() || k.L() > k.O() || k.L() > k.C() || k.H() < k.O() || k.H() < k.C() {
      return None;
    }
    var legs := if k.C() < k.O() then ["open", "high", "low", "close"] else ["open", "low", "high", "close"];
    var offsets := [0, ivl / 4, ivl / 2, ivl];
    var subs: seq<SubTick> := [];
    for i := 0 to 4
      invariant |subs| == i
      invariant forall j :: 0 <= j < i ==> subs[j] == SubTick(legs[j], Price(k, legs[j]), k.openTime + offsets[j])
    {
      subs := subs + [SubTick(legs[i], Price(k, legs[i]), k.openTime + offsets[i])];
    }
    out := Some(subs);
  }

  // ----- The last-mark cache -----

  const SKEW := 5000

  datatype Tick = Tick(mark: real, ts: int)

  /** A mark is usable from 5 s before its time until it is older than the bound. */
  predicate Usable(t: Tick, now: int, maxAge: int) {
    -SKEW <= now - t.ts <= maxAge
  }

  class MarkStore {
    const maxAge: int
    var ticks: map<string, Tick>

    constructor (maxAge: int)
      ensures this.maxAge == maxAge && ticks == map[]
    {
      this.maxAge, ticks := maxAge, map[];
    }

    method Put(symbol: string, t: Tick)
      modifies this`ticks
      ensures ticks == old(ticks)[symbol := t]
    {
      ticks := ticks[symbol := t];
    }

    /** The mark, its time when one is cached, and whether it is usable; an unusable price is zero. */
    method Mark(symbol: string, now: int) returns (mark: real, ts: Option<int>, ok: bool)
      ensures ts == if symbol in ticks then Some(ticks[symbol].ts) else None
      ensures ok <==> symbol in ticks && Usable(ticks[symbol], now, maxAge)
      ensures mark == if ok then ticks[symbol].mark else 0.0
    {
      if symbol !in ticks {
        return 0.0, None, false;
      }
      var t := ticks[symbol];
      var age := now - t.ts;
      if age < -SKEW || age > maxAge {
        return 0.0, Some(t.ts), false;
      }
      return t.mark, Some(t.ts), true;
    }
  }
}
