/**
 The replay loop: per grid tick it pumps the slot's candle, if there is one, and then
 decides at the close time plus one second with the cached mark.

 The OMS sweep after each mark write and the evaluation of a proposal are given as
 their error answers; the strategy state they update is not part of this model.
 */
module BacktestReplay {
  import opened Wrappers
  import opened Backtest

  /** Whether the sweep after a sub-tick, and the evaluation of a tick, succeed. */
  datatype Effects = Effects(sweeps: (int, SubTick) -> bool, evaluates: (int, int, Option<real>) -> bool)

  /** What a decision saw: its time, the usable mark, and the time of the cached mark. */
  datatype Decision = Decision(now: int, mark: Option<real>, cachedAt: Option<int>)

  datatype Spec = Spec(strategy: string, symbol: string, interval: string, maxAge: int)

  /** A legal interval, and a freshness bound between one second and the interval. */
  predicate ValidSpec(s: Spec) {
    var d := IntervalSeconds(s.interval);
    Canonical(s.symbol) && d.Some? && 1 <= s.maxAge <= d.value
  }

  // ----- Proposal lines -----

  datatype ProposalLine = ProposalLine(tick: Option<int>, strategy: string, symbol: string, createdAt: int)

  /** Close time of a slot plus one second: when its decision is made. */
  function DecisionTime(ks: seq<Kline>, ivl: int, tick: int): int
    requires |ks| > 0
  {
    GridOpen(ks, ivl, tick) + ivl + SECOND
  }

  predicate AlignedAt(line: ProposalLine, tick: int, spec: Spec, ks: seq<Kline>, ivl: int)
    requires |ks| > 0
  {
    && line.tick == Some(tick) && line.strategy == spec.strategy && line.symbol == spec.symbol
    && line.createdAt == DecisionTime(ks, ivl, tick)
  }

  /** One line per tick, in order, for the strategy and symbol of the run, created at the tick's decision time. */
  ghost predicate Aligned(lines: seq<ProposalLine>, spec: Spec, ks: seq<Kline>, ivl: int)
    requires |ks| > 0 && ivl > 0
  {
    |lines| == Ticks(ks, ivl) && forall i :: 0 <= i < |lines| ==> AlignedAt(lines[i], i, spec, ks, ivl)
  }

  /** The reader of the proposal lines. */
  method ReadProposals(lines: seq<ProposalLine>, spec: Spec, ks: seq<Kline>, ivl: int) returns (ok: bool)
    requires |ks| > 0 && ivl > 0
    ensures ok <==> Aligned(lines, spec, ks, ivl)
  {
    var n := 0;
    while n < |lines|
      invariant 0 <= n <= |lines|
      invariant forall i :: 0 <= i < n ==> AlignedAt(lines[i], i, spec, ks, ivl)
    {
      var line := lines[n];
      if line.tick != Some(n) || line.strategy != spec.strategy || line.symbol != spec.symbol {
        return false;
      }
      if line.createdAt != ks[0].openTime + (n + 1) * ivl + SECOND {
        return false;
      }
      n := n + 1;
    }
    ok := n == Ticks(ks, ivl);
  }

  // ----- What a replay does -----

  /** Candle i was pumped at its tick without an error. */
  predicate PumpOk(ks: seq<Kline>, ivl: int, e: Effects, i: nat)
    requires i < |ks| && ivl > 0
  {
    Ohlc(ks[i]) && forall leg :: 0 <= leg < 4 ==> e.sweeps(Slot(ks, ivl, i), SubTickOf(ks[i], ivl, leg))
  }

  ghost predicate HasCandle(ks: seq<Kline>, ivl: int, tick: int)
    requires ivl > 0
  {
    exists i :: 0 <= i < |ks| && Slot(ks, ivl, i) == tick
  }

  /** The mark a tick is decided on: the close of the slot's candle, if there is one. */
  ghost function MarkAt(ks: seq<Kline>, ivl: int, tick: int): Option<real>
    requires ivl > 0
  {
    if HasCandle(ks, ivl, tick)
    then (var i :| 0 <= i < |ks| && Slot(ks, ivl, i) == tick; Some(ks[i].C())) else None
  }

  /** The evaluation of a tick, at its decision time and on its mark, does not fail. */
  ghost predicate EvaluateOk(ks: seq<Kline>, ivl: int, e: Effects, tick: int)
    requires ivl > 0 && |ks| > 0
  {
    e.evaluates(tick, DecisionTime(ks, ivl, tick), MarkAt(ks, ivl, tick))
  }

  /** Nothing the replay does before and at the end of n ticks fails. */
  ghost predicate CleanUpTo(ks: seq<Kline>, ivl: int, e: Effects, n: int)
    requires ivl > 0 && |ks| > 0
  {
    && (forall i :: 0 <= i < |ks| && Slot(ks, ivl, i) < n ==> PumpOk(ks, ivl, e, i))
    && (forall tick :: 0 <= tick < n ==> EvaluateOk(ks, ivl, e, tick))
  }

  /** The decision of a tick: the candle's close if the slot has one, no usable mark otherwise. */
  ghost predicate DecidesRight(ks: seq<Kline>, ivl: int, tick: int, d: Decision)
    requires ivl > 0 && |ks| > 0
  {
    var close := GridOpen(ks, ivl, tick) + ivl;
    && d.now == close + SECOND
    && d.cachedAt.Some? && d.cachedAt.value <= close
    && (d.mark.Some? <==> exists i :: 0 <= i < |ks| && Slot(ks, ivl, i) == tick)
    && forall i :: 0 <= i < |ks| && Slot(ks, ivl, i) == tick ==> d.mark == Some(ks[i].C())
  }

  lemma MarkIsTheClose(ks: seq<Kline>, ivl: int, tick: int, d: Decision)
    requires ivl > 0 && |ks| > 0 && DecidesRight(ks, ivl, tick, d)
    ensures d.mark == MarkAt(ks, ivl, tick) && d.now == DecisionTime(ks, ivl, tick)
  {
  }

  /** Candles below k have slots below tick, the others at or above it. */
  ghost predicate Split(ks: seq<Kline>, ivl: int, k: nat, tick: int)
    requires ivl > 0
  {
    && k <= |ks|
    && (forall i :: 0 <= i < k ==> Slot(ks, ivl, i) < tick)
    && (forall i :: k <= i < |ks| ==> Slot(ks, ivl, i) >= tick)
  }

  lemma SplitNext(ks: seq<Kline>, ivl: int, k: nat, tick: int)
    requires ivl > 0 && Valid(ks, ivl) && Split(ks, ivl, k, tick)
    ensures if k < |ks| && Slot(ks, ivl, k) == tick then Split(ks, ivl, k + 1, tick + 1) else Split(ks, ivl, k, tick + 1)
  {
    if k < |ks| {
      forall i | k < i < |ks|
        ensures Slot(ks, ivl, i) > Slot(ks, ivl, k)
      {
        SlotsAscend(ks, ivl, k, i);
      }
    }
  }

  /** The cache holds the close of the last pumped candle, stamped with its close time. */
  ghost predicate Caches(ks: seq<Kline>, ivl: int, k: nat, cached: Option<Tick>)
    requires ivl > 0 && k <= |ks|
  {
    if k == 0 then cached.None? else cached == Some(Tick(ks[k - 1].C(), ks[k - 1].openTime + ivl))
  }

  function DecisionAt(ks: seq<Kline>, ivl: int, tick: int, cached: Option<Tick>, maxAge: int): Decision
    requires |ks| > 0
  {
    var now := DecisionTime(ks, ivl, tick);
    Decision(now, if cached.Some? && Usable(cached.value, now, maxAge) then Some(cached.value.mark) else None,
             if cached.Some? then Some(cached.value.ts) else None)
  }

  /**
   With the freshness bound between one second and the interval, the decision sees the
   slot's own close one second after it, and a gap leaves the last mark too old.
   */
  lemma DecisionIsRight(ks: seq<Kline>, ivl: int, k: nat, tick: int, cached: Option<Tick>, maxAge: int)
    requires ivl > 0 && Valid(ks, ivl) && 0 < k && SECOND <= maxAge <= ivl
    requires Split(ks, ivl, k, tick + 1) && Caches(ks, ivl, k, cached)
    ensures DecidesRight(ks, ivl, tick, DecisionAt(ks, ivl, tick, cached, maxAge))
  {
    var last := Slot(ks, ivl, k - 1);
    OnItsSlot(ks, ivl, k - 1);
    forall i | 0 <= i < k - 1
      ensures Slot(ks, ivl, i) < last
    {
      SlotsAscend(ks, ivl, i, k - 1);
    }
    if last < tick {
      StepsApart(last, tick, ivl);
    }
  }

  lemma StepsApart(a: int, b: int, d: int)
    requires a < b && d > 0
    ensures a * d + d <= b * d
  {
    assert a * d + d == (a + 1) * d;
    ScaleKeepsOrder(a + 1, b, d);
  }

  /** The candles pumped so far: each once, in order, each at its own tick. */
  ghost predicate EachOnce(ks: seq<Kline>, ivl: int, pumped: seq<(int, nat)>)
    requires ivl > 0
  {
    forall i :: 0 <= i < |pumped| ==> i < |ks| && pumped[i] == (Slot(ks, ivl, i), i)
  }

  lemma PumpsOn(ks: seq<Kline>, ivl: int, pumped: seq<(int, nat)>, tick: int)
    requires ivl > 0 && EachOnce(ks, ivl, pumped) && |pumped| < |ks| && tick == Slot(ks, ivl, |pumped|)
    ensures EachOnce(ks, ivl, pumped + [(tick, |pumped|)])
  {
  }

  ghost predicate AllRight(ks: seq<Kline>, ivl: int, decisions: seq<Decision>)
    requires ivl > 0 && |ks| > 0
  {
    forall tick :: 0 <= tick < |decisions| ==> DecidesRight(ks, ivl, tick, decisions[tick])
  }

  lemma RightOn(ks: seq<Kline>, ivl: int, decisions: seq<Decision>, d: Decision)
    requires ivl > 0 && |ks| > 0 && AllRight(ks, ivl, decisions) && DecidesRight(ks, ivl, |decisions|, d)
    ensures AllRight(ks, ivl, decisions + [d])
  {
  }

  class Replay {
    const spec: Spec
    const lines: seq<ProposalLine>
    const ks: seq<Kline>
    const ivl: int
    const e: Effects
    const store: MarkStore
    var pumped: seq<(int, nat)>
    var decisions: seq<Decision>

    constructor (spec: Spec, ks: seq<Kline>, lines: seq<ProposalLine>, e: Effects)
      requires ValidSpec(spec)
      ensures this.spec == spec && this.ks == ks && this.lines == lines && this.e == e
      ensures ivl == IntervalMs(spec.interval) && store.maxAge == spec.maxAge * 1000 && SECOND <= store.maxAge <= ivl
      ensures fresh(store) && store.ticks == map[] && pumped == [] && decisions == []
    {
      this.spec, this.ks, this.lines, this.e := spec, ks, lines, e;
      this.ivl := IntervalMs(spec.interval);
      store := new MarkStore(spec.maxAge * SECOND);
      pumped, decisions := [], [];
    }

    function Cached(): Option<Tick>
      reads this, store
    {
      if spec.symbol in store.ticks then Some(store.ticks[spec.symbol]) else None
    }

    /** The candle's four sub-ticks, each a mark write and a sweep. */
    method PumpCandle(tick: int, i: nat) returns (ok: bool)
      requires ivl > 0 && i < |ks| && tick == Slot(ks, ivl, i)
      modifies this`pumped, store
      ensures ok <==> PumpOk(ks, ivl, e, i)
      ensures pumped == if ok then old(pumped) + [(tick, i)] else old(pumped)
      ensures ok ==> Cached() == Some(Tick(ks[i].C(), ks[i].openTime + ivl))
    {
      var subs := SubTicks(ks[i], ivl);
      if subs.None? {
        return false;
      }
      for leg := 0 to 4
        invariant pumped == old(pumped)
        invariant forall j :: 0 <= j < leg ==> e.sweeps(tick, SubTickOf(ks[i], ivl, j))
        invariant leg > 0 ==> Cached() == Some(Tick(subs.value[leg - 1].mark, subs.value[leg - 1].ts))
      {
        store.Put(spec.symbol, Tick(subs.value[leg].mark, subs.value[leg].ts));
        if !e.sweeps(tick, subs.value[leg]) {
          return false;
        }
      }
      pumped := pumped + [(tick, i)];
      ok := true;
    }

    /** The decision at the close time plus one second, on the mark of the proposal's own symbol. */
    method Decide(tick: int)
      requires |ks| > 0 && ivl > 0 && Aligned(lines, spec, ks, ivl) && 0 <= tick < |lines|
      modifies this`decisions
      ensures decisions == old(decisions) + [DecisionAt(ks, ivl, tick, Cached(), store.maxAge)]
    {
      var now := DecisionTime(ks, ivl, tick);
      assert AlignedAt(lines[tick], tick, spec, ks, ivl);
      var mark, ts, ok := store.Mark(lines[tick].symbol, now);
      decisions := decisions + [Decision(now, if ok then Some(mark) else None, ts)];
    }

    /** Decides on the cached mark and evaluates the proposal of the tick. */
    method Evaluate(tick: int, k: nat) returns (ok: bool)
      requires ivl > 0 && |ks| > 0 && Valid(ks, ivl) && SECOND <= store.maxAge <= ivl && Aligned(lines, spec, ks, ivl)
      requires 0 < k && Split(ks, ivl, k, tick + 1) && Caches(ks, ivl, k, Cached())
      requires 0 <= tick < |lines| && |decisions| == tick && AllRight(ks, ivl, decisions)
      modifies this`decisions
      ensures |decisions| == tick + 1 && AllRight(ks, ivl, decisions)
      ensures ok <==> EvaluateOk(ks, ivl, e, tick)
    {
      ghost var d := DecisionAt(ks, ivl, tick, Cached(), store.maxAge);
      DecisionIsRight(ks, ivl, k, tick, Cached(), store.maxAge);
      RightOn(ks, ivl, decisions, d);
      MarkIsTheClose(ks, ivl, tick, d);
      Decide(tick);
      ok := e.evaluates(tick, decisions[tick].now, decisions[tick].mark);
    }

    /** What the loop knows before a tick. */
    ghost predicate Before(k: nat, tick: int)
      reads this, store
      requires ivl > 0 && |ks| > 0
    {
      && |decisions| == tick && k == |pumped| && Split(ks, ivl, k, tick) && Caches(ks, ivl, k, Cached())
      && EachOnce(ks, ivl, pumped) && AllRight(ks, ivl, decisions)
    }

    /** Pumps the tick's candle, if the next one opens at its grid time. */
    method PumpTick(tick: int, k: nat) returns (ok: bool, next: nat)
      requires ivl > 0 && |ks| > 0 && Valid(ks, ivl)
      requires k == |pumped| && Split(ks, ivl, k, tick) && Caches(ks, ivl, k, Cached()) && EachOnce(ks, ivl, pumped)
      modifies this`pumped, store
      ensures ok ==> Split(ks, ivl, next, tick + 1) && Caches(ks, ivl, next, Cached())
      ensures ok ==> next == |pumped| && next == if k < |ks| && Slot(ks, ivl, k) == tick then k + 1 else k
      ensures EachOnce(ks, ivl, pumped)
      ensures ok <==> (k < |ks| && Slot(ks, ivl, k) == tick ==> PumpOk(ks, ivl, e, k))
    {
      SplitNext(ks, ivl, k, tick);
      ok, next := true, k;
      if k < |ks| {
        AtGridWhenSlot(ks, ivl, k, tick);
        if ks[k].openTime == GridOpen(ks, ivl, tick) {
          PumpsOn(ks, ivl, pumped, tick);
          ok := PumpCandle(tick, k);
          next := k + 1;
        }
      }
    }

    /** One tick: the slot's candle, if there is one, and the decision. */
    method RunTick(tick: int, k: nat) returns (ok: bool, next: nat)
      requires ivl > 0 && |ks| > 0 && Valid(ks, ivl) && SECOND <= store.maxAge <= ivl && Aligned(lines, spec, ks, ivl)
      requires Before(k, tick) && CleanUpTo(ks, ivl, e, tick) && (tick > 0 ==> k > 0) && 0 <= tick < Ticks(ks, ivl)
      modifies this`pumped, this`decisions, store
      ensures ok ==> next > 0 && Before(next, tick + 1) && CleanUpTo(ks, ivl, e, tick + 1)
      ensures !ok ==> !CleanUpTo(ks, ivl, e, Ticks(ks, ivl)) && |decisions| <= tick + 1
      ensures EachOnce(ks, ivl, pumped) && AllRight(ks, ivl, decisions)
    {
      if tick == 0 {
        SlotsSpanTicks(ks, ivl, 0);
      }
      ok, next := PumpTick(tick, k);
      if !ok {
        FaultShows(ks, ivl, e, k, Ticks(ks, ivl));
        return;
      }
      ok := Evaluate(tick, next);
      if ok {
        CleanNext(ks, ivl, e, k, next, tick);
      }
    }

    /**
     The candle loop. When nothing fails every candle is pumped exactly once, at its own
     tick; and every decision it reaches is right, failing or not.
     */
    method Run() returns (ok: bool)
      requires ivl > 0 && |ks| > 0 && Valid(ks, ivl) && SECOND <= store.maxAge <= ivl
      requires pumped == [] && decisions == [] && spec.symbol !in store.ticks && Aligned(lines, spec, ks, ivl)
      modifies this`pumped, this`decisions, store
      ensures ok <==> CleanUpTo(ks, ivl, e, Ticks(ks, ivl))
      ensures EachOnce(ks, ivl, pumped) && AllRight(ks, ivl, decisions)
      ensures |decisions| <= Ticks(ks, ivl)
      ensures ok ==> |pumped| == |ks| && |decisions| == Ticks(ks, ivl)
    {
      var k, tick, ticks := 0, 0, Ticks(ks, ivl);
      SlotsStart(ks, ivl, e);
      while tick < ticks
        invariant 0 <= tick <= ticks && Before(k, tick) && (tick > 0 ==> k > 0)
        invariant CleanUpTo(ks, ivl, e, tick)
      {
        ok, k := RunTick(tick, k);
        if !ok {
          return;
        }
        tick := tick + 1;
      }
      AllPumped(ks, ivl, k);
      ok := true;
    }
  }

  /**
   A run over a dataset: refused for another symbol or interval, or for lines that are
   not aligned; otherwise complete exactly when nothing fails.
   */
  method Replayed(spec: Spec, ds: Dataset, lines: seq<ProposalLine>, e: Effects)
      returns (run: Option<Replay>, complete: bool)
    requires ValidSpec(spec) && ds.Sound() && ds.klines != []
    ensures var ks, ivl := ds.klines, IntervalMs(ds.interval);
      && ivl > 0
      && (run.Some? <==> ds.symbol == spec.symbol && ds.interval == spec.interval && Aligned(lines, spec, ks, ivl))
      && (run.None? ==> !complete)
      && (run.Some? ==> fresh(run.value) && (complete <==> CleanUpTo(ks, ivl, e, Ticks(ks, ivl))))
      && (run.Some? ==> EachOnce(ks, ivl, run.value.pumped) && AllRight(ks, ivl, run.value.decisions))
      && (run.Some? ==> |run.value.decisions| <= |lines|)
      && (run.Some? ==> forall t :: 0 <= t < |run.value.decisions| ==> run.value.decisions[t].now == lines[t].createdAt)
      && (complete ==> |run.value.pumped| == |ks| && |run.value.decisions| == |lines|)
  {
    run, complete := None, false;
    if ds.symbol != spec.symbol || ds.interval != spec.interval {
      return;
    }
    var ks, ivl := ds.klines, IntervalMs(ds.interval);
    var aligned := ReadProposals(lines, spec, ks, ivl);
    if !aligned {
      return;
    }
    var replay := new Replay(spec, ks, lines, e);
    complete := replay.Run();
    OnTime(ks, ivl, spec, lines, replay.decisions);
    run := Some(replay);
  }

  lemma OnTime(ks: seq<Kline>, ivl: int, spec: Spec, lines: seq<ProposalLine>, decisions: seq<Decision>)
    requires ivl > 0 && |ks| > 0 && Aligned(lines, spec, ks, ivl) && AllRight(ks, ivl, decisions)
    requires |decisions| <= |lines|
    ensures forall t :: 0 <= t < |decisions| ==> decisions[t].now == lines[t].createdAt
  {
    forall t | 0 <= t < |decisions|
      ensures decisions[t].now == lines[t].createdAt
    {
      assert AlignedAt(lines[t], t, spec, ks, ivl) && DecidesRight(ks, ivl, t, decisions[t]);
    }
  }

  lemma SlotsStart(ks: seq<Kline>, ivl: int, e: Effects)
    requires ivl > 0 && |ks| > 0 && Valid(ks, ivl)
    ensures Slot(ks, ivl, 0) == 0 && Ticks(ks, ivl) > 0 && Split(ks, ivl, 0, 0) && CleanUpTo(ks, ivl, e, 0)
  {
    forall i | 0 <= i < |ks|
      ensures Slot(ks, ivl, i) >= 0
    {
      SlotsSpanTicks(ks, ivl, i);
    }
    SlotsSpanTicks(ks, ivl, 0);
  }

  /** A candle that cannot be pumped keeps the whole replay from being clean. */
  lemma FaultShows(ks: seq<Kline>, ivl: int, e: Effects, i: nat, ticks: int)
    requires ivl > 0 && i < |ks| && Valid(ks, ivl) && ticks == Ticks(ks, ivl) && !PumpOk(ks, ivl, e, i)
    ensures !CleanUpTo(ks, ivl, e, ticks)
  {
    SlotsSpanTicks(ks, ivl, i);
  }

  lemma AllPumped(ks: seq<Kline>, ivl: int, k: nat)
    requires ivl > 0 && |ks| > 0 && Valid(ks, ivl) && Split(ks, ivl, k, Ticks(ks, ivl))
    ensures k == |ks|
  {
    SlotsSpanTicks(ks, ivl, |ks| - 1);
  }

  lemma CleanNext(ks: seq<Kline>, ivl: int, e: Effects, first: nat, k: nat, tick: int)
    requires ivl > 0 && |ks| > 0 && CleanUpTo(ks, ivl, e, tick) && EvaluateOk(ks, ivl, e, tick)
    requires Split(ks, ivl, first, tick) && Split(ks, ivl, k, tick + 1) && first <= k <= first + 1
    requires first < |ks| && Slot(ks, ivl, first) == tick ==> PumpOk(ks, ivl, e, first)
    ensures CleanUpTo(ks, ivl, e, tick + 1)
  {
  }
}
