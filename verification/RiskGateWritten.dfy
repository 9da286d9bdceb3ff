/**
 The gate written out: what it admits, the code of each rejection, and what an executed
 open may lose, over the fields of the proposal, the limits and the state alone.
 Durations are nanoseconds.
 */
module RiskGateWritten {
  import opened Wrappers
  import opened Decimals
  import opened RiskGate
  import opened RiskGateLaws

  // ----- A valid proposal -----

  predicate Opens(p: Proposal) {
    p.action == OpenLong || p.action == OpenShort
  }

  /** The price the stop and the target are placed against. */
  function PriceOf(p: Proposal, s: Runtime): real {
    if p.entry == Limit && p.limitPrice.Some? then p.limitPrice.value else s.mark
  }

  /** How far the stop lies on the losing side of a price; not positive when it is on the wrong side. */
  function LossTo(p: Proposal, price: real, stop: real): real {
    if p.action == OpenLong then price - stop else stop - price
  }

  /** The target, if there is one, lies on the winning side of a price. */
  predicate TakesAProfit(p: Proposal, price: real) {
    p.take.Some? ==> if p.action == OpenLong then p.take.value > price else p.take.value < price
  }

  /** The contract's rules on a proposal. */
  predicate WellFormed(p: Proposal) {
    && p.version == "1.0" && p.faults == 0 && 0.0 <= p.confidence <= 1.0
    && (p.action == OpenLong || p.action == OpenShort || p.action == Close || p.action == Hold)
    && (p.entry == Limit || p.entry == Market) && (p.entry == Limit <==> p.limitPrice.Some?)
    && (if Opens(p) then p.stop.Some? && p.size > 0.0
        else p.stop.None? && p.take.None? && (p.action == Hold ==> p.size == 0.0))
    && (Opens(p) && p.limitPrice.Some? ==>
          var price := p.limitPrice.value;
          price > 0.0 && LossTo(p, price, p.stop.value) > 0.0 && TakesAProfit(p, price))
  }

  lemma ValidExactly(p: Proposal)
    ensures Validate(p) == [] <==> WellFormed(p)
  {
    OrderFieldsExactly(p);
    assert |seq(p.faults, i => SchemaInvalid)| == p.faults;
    var head := If(p.version != VERSION, UnsupportedSchemaVersion) + seq(p.faults, i => SchemaInvalid)
                + If(p.action.Other?, SchemaInvalid) + If(p.confidence < 0.0 || p.confidence > 1.0, SchemaInvalid);
    assert Validate(p) == head + ValidateOrderFields(p);
    assert |Validate(p)| == |head| + |ValidateOrderFields(p)|;
  }

  lemma PlacedExactly(p: Proposal, price: real, stop: real)
    requires Opens(p)
    ensures CheckStopAndTarget(p.action, price, stop, p.take) == []
            <==> price > 0.0 && LossTo(p, price, stop) > 0.0 && TakesAProfit(p, price)
  {
    assert |CheckStopAndTarget(p.action, price, stop, p.take)| >= 0;
  }

  lemma OrderFieldsExactly(p: Proposal)
    ensures ValidateOrderFields(p) == [] <==>
      && (p.entry == Limit || p.entry == Market) && (p.entry == Limit <==> p.limitPrice.Some?)
      && (if Opens(p) then p.stop.Some? && p.size > 0.0
          else p.stop.None? && p.take.None? && (p.action == Hold ==> p.size == 0.0))
      && (Opens(p) && p.limitPrice.Some? ==>
            var price := p.limitPrice.value;
            price > 0.0 && LossTo(p, price, p.stop.value) > 0.0 && TakesAProfit(p, price))
  {
    if Opens(p) && p.entry.Limit? && p.limitPrice.Some? && p.stop.Some? {
      PlacedExactly(p, p.limitPrice.value, p.stop.value);
    }
    assert |ValidateOrderFields(p)| >= 0;
  }

  // ----- What the gate admits -----

  /** The loss at the stop and the fee of an order of a size. */
  function Loses(p: Proposal, s: Runtime, size: real): real
    requires p.stop.Some? && PriceOf(p, s) > 0.0
  {
    size * LossTo(p, PriceOf(p, s), p.stop.value) / PriceOf(p, s) + size * s.feeRate
  }

  predicate Fresh(p: Proposal, l: Limits, now: int) {
    && now - p.created <= (if l.staleness <= 0 then 60 else l.staleness) * 1000000000
    && p.created - now <= 5 * 1000000000
  }

  /** The opening conditions. */
  predicate RoomToOpen(p: Proposal, l: Limits, s: Runtime)
    requires p.stop.Some?
  {
    var price := PriceOf(p, s);
    && price > 0.0
    && p.confidence >= 0.3 && !s.breaker && p.symbol in l.whitelist
    && Max(0.0, -s.dailyPnl) + s.reserved + Loses(p, s, p.size) < l.dailyLossLimit
    && (s.peak > 0.0 ==> (s.peak - s.equity) * 100.0 <= l.maxDrawdownPct * s.peak)
    && LossTo(p, price, p.stop.value) > 0.0 && TakesAProfit(p, price)
    && l.minStopPct <= LossTo(p, price, p.stop.value) * 100.0 / price <= l.maxStopPct
    && Loses(p, s, p.size) <= l.maxLossAtStop
    && s.openPositions + s.pendingEntries < l.maxOpenPositions && l.cap != 0.0
  }

  lemma LosesIsTheWorstCase(p: Proposal, s: Runtime, size: real)
    requires Opens(p) && p.stop.Some? && PriceOf(p, s) > 0.0 && LossTo(p, PriceOf(p, s), p.stop.value) > 0.0
    ensures EntryPrice(p, s) == PriceOf(p, s)
    ensures WorstCase(size, EntryPrice(p, s), p.stop.value, s.feeRate) == Loses(p, s, size)
    ensures StopDistancePct(EntryPrice(p, s), p.stop.value)
         == LossTo(p, PriceOf(p, s), p.stop.value) * 100.0 / PriceOf(p, s)
  {
    assert Abs(EntryPrice(p, s) - p.stop.value) == LossTo(p, PriceOf(p, s), p.stop.value);
  }

  lemma RoomExactly(p: Proposal, l: Limits, s: Runtime)
    requires Opens(p) && p.stop.Some?
    ensures OpensWithin(p, l, s) <==> RoomToOpen(p, l, s)
  {
    var price := PriceOf(p, s);
    PlacedExactly(p, price, p.stop.value);
    if price > 0.0 && LossTo(p, price, p.stop.value) > 0.0 {
      LosesIsTheWorstCase(p, s, p.size);
      assert DailyLoss(s) == Max(0.0, -s.dailyPnl) + s.reserved;
    }
  }

  /**
   A proposal is not rejected exactly when it is well formed, nothing is killed, it is
   fresh, the order rate has room unless it holds, and an open has room to open.
   */
  lemma AdmitsExactly(p: Proposal, l: Limits, s: Runtime, now: int)
    ensures !Evaluate(p, l, s, now).decision.Reject?
            <==> && WellFormed(p) && !s.kill && Fresh(p, l, now)
                 && (p.action != Hold ==> s.recentOrders < l.maxOrdersPerMinute)
                 && (Opens(p) ==> RoomToOpen(p, l, s))
  {
    RejectsExactlyOutside(p, l, s, now);
    ValidExactly(p);
    if WellFormed(p) && Opens(p) {
      RoomExactly(p, l, s);
    }
  }

  /** What an admitted proposal gets: the cap, then the second level's envelope on the capped size. */
  lemma AdmittedVerdict(p: Proposal, l: Limits, s: Runtime, now: int)
    requires !Evaluate(p, l, s, now).decision.Reject?
    ensures var v, size := Evaluate(p, l, s, now), Min(p.size, l.cap);
      var beyond := s.autonomy == 2 && l.envelope.Some?
                    && (size > l.envelope.value.maxSize || p.symbol !in l.envelope.value.symbols);
      if !Opens(p) then v == Verdict(Approve, None, [])
      else if beyond
      then v == Verdict(Escalate, None, (if p.size > l.cap then [NotionalCapClipped] else []) + [EscalatedAboveEnvelope])
      else if p.size > l.cap then v == Verdict(Clip, Some(l.cap), [NotionalCapClipped])
      else v == Verdict(Approve, None, [])
  {
    AdmitsExactly(p, l, s, now);
    if !Opens(p) {
      assert p.action.Hold? || p.action.Close?;
    }
  }

  // ----- The code of a rejection -----

  datatype Check = Check(fails: bool, code: Code)

  /** The code of the first check that fails. */
  function FirstCode(checks: seq<Check>): Option<Code> {
    if checks == [] then None else if checks[0].fails then Some(checks[0].code) else FirstCode(checks[1..])
  }

  lemma FirstOfTwo(a: seq<Check>, b: seq<Check>)
    ensures FirstCode(a + b) == if FirstCode(a).Some? then FirstCode(a) else FirstCode(b)
  {
    if a == [] {
      assert a + b == b;
    } else {
      FirstOfTwo(a[1..], b);
      assert (a + b)[1..] == a[1..] + b;
    }
  }

  lemma FirstOfThree(a: Check, b: Check, c: Check)
    ensures FirstCode([a, b, c]) == if a.fails then Some(a.code) else if b.fails then Some(b.code)
                                    else if c.fails then Some(c.code) else None
  {
    assert [a, b, c][1..] == [b, c] && [b, c][1..] == [c] && [c][1..] == [];
    assert FirstCode([c]) == if c.fails then Some(c.code) else None;
  }

  /** Checks on every proposal. */
  function Standing(p: Proposal, l: Limits, s: Runtime, now: int): seq<Check> {
    [Check(s.kill, KillSwitchActive), Check(!Fresh(p, l, now), ProposalStale)]
  }

  /** Checks on an open: the price, the confidence and the breaker; */
  function PriceChecks(p: Proposal, s: Runtime): seq<Check> {
    [Check(PriceOf(p, s) <= 0.0, MarkPriceUnavailable), Check(p.confidence < 0.3, LowConfidence),
     Check(s.breaker, DailyLossLimitBreached)]
  }

  /** How far the stop lies from the price, on whichever side. */
  function Distance(p: Proposal, s: Runtime): real
    requires p.stop.Some?
  {
    Max(PriceOf(p, s) - p.stop.value, p.stop.value - PriceOf(p, s))
  }

  /** The loss at that distance and the fee. */
  function Risks(p: Proposal, s: Runtime): real
    requires p.stop.Some? && PriceOf(p, s) > 0.0
  {
    p.size * Distance(p, s) / PriceOf(p, s) + p.size * s.feeRate
  }

  /** then the day, the drawdown and the whitelist; */
  function DayChecks(p: Proposal, l: Limits, s: Runtime): seq<Check>
    requires p.stop.Some? && PriceOf(p, s) > 0.0
  {
    [Check(Max(0.0, -s.dailyPnl) + s.reserved + Risks(p, s) >= l.dailyLossLimit, DailyLossLimitBreached),
     Check(s.peak > 0.0 && (s.peak - s.equity) * 100.0 > l.maxDrawdownPct * s.peak, MaxDrawdownBreached),
     Check(p.symbol !in l.whitelist, SymbolNotWhitelisted)]
  }

  /** then the stop, the target and the stop distance; */
  function StopChecks(p: Proposal, l: Limits, s: Runtime): seq<Check>
    requires p.stop.Some? && PriceOf(p, s) > 0.0
  {
    var pct := Distance(p, s) * 100.0 / PriceOf(p, s);
    [Check(LossTo(p, PriceOf(p, s), p.stop.value) <= 0.0, InvalidStopPlacement),
     Check(!TakesAProfit(p, PriceOf(p, s)), InvalidTakeProfit),
     Check(pct < l.minStopPct || pct > l.maxStopPct, InvalidStopPlacement)]
  }

  /** then the loss per trade, the order rate and the slots; */
  function SizeChecks(p: Proposal, l: Limits, s: Runtime): seq<Check>
    requires p.stop.Some? && PriceOf(p, s) > 0.0
  {
    [Check(Risks(p, s) > l.maxLossAtStop, RiskPerTradeExceeded),
     Check(s.recentOrders >= l.maxOrdersPerMinute, OrderRateExceeded),
     Check(s.openPositions + s.pendingEntries >= l.maxOpenPositions, MaxPositionsReached)]
  }

  /** and last a cap of zero. */
  function ChecksOf(p: Proposal, l: Limits, s: Runtime, now: int): seq<Check> {
    if p.action == Hold then Standing(p, l, s, now)
    else if !Opens(p) then
      Standing(p, l, s, now) + [Check(s.recentOrders >= l.maxOrdersPerMinute, OrderRateExceeded)]
    else if p.stop.None? || PriceOf(p, s) <= 0.0 then Standing(p, l, s, now) + PriceChecks(p, s)
    else
      Standing(p, l, s, now) + (PriceChecks(p, s) + (DayChecks(p, l, s) + (StopChecks(p, l, s)
      + (SizeChecks(p, l, s) + [Check(l.cap == 0.0, NotionalCapZero)]))))
  }

  lemma DistanceIsAbs(p: Proposal, s: Runtime)
    requires p.stop.Some? && PriceOf(p, s) > 0.0
    ensures EntryPrice(p, s) == PriceOf(p, s) && Distance(p, s) == Abs(EntryPrice(p, s) - p.stop.value)
    ensures WorstCase(p.size, EntryPrice(p, s), p.stop.value, s.feeRate) == Risks(p, s)
  {
  }

  /** The opening checks of the code, as the three lists above. */
  lemma CheckOpenIsTheLists(p: Proposal, l: Limits, s: Runtime)
    requires Opens(p) && p.stop.Some? && PriceOf(p, s) > 0.0
    ensures var c := CheckOpen(p, l, s, PriceOf(p, s), Risks(p, s));
      c == (if p.confidence < 0.3 then Some(LowConfidence) else if s.breaker then Some(DailyLossLimitBreached)
            else if FirstCode(DayChecks(p, l, s)).Some? then FirstCode(DayChecks(p, l, s))
            else if FirstCode(StopChecks(p, l, s)).Some? then FirstCode(StopChecks(p, l, s))
            else if Risks(p, s) > l.maxLossAtStop then Some(RiskPerTradeExceeded) else None)
  {
    var day, stop := DayChecks(p, l, s), StopChecks(p, l, s);
    DistanceIsAbs(p, s);
    FirstOfThree(day[0], day[1], day[2]);
    FirstOfThree(stop[0], stop[1], stop[2]);
    assert day == [day[0], day[1], day[2]] && stop == [stop[0], stop[1], stop[2]];
    PlacedExactly(p, PriceOf(p, s), p.stop.value);
    FirstFault(p, PriceOf(p, s), p.stop.value);
  }

  lemma FirstFault(p: Proposal, price: real, stop: real)
    requires Opens(p) && price > 0.0
    ensures var faults := CheckStopAndTarget(p.action, price, stop, p.take);
      && (LossTo(p, price, stop) <= 0.0 ==> faults != [] && faults[0] == InvalidStopPlacement)
      && (LossTo(p, price, stop) > 0.0 && !TakesAProfit(p, price) ==> faults != [] && faults[0] == InvalidTakeProfit)
  {
  }

  lemma StandingCode(p: Proposal, l: Limits, s: Runtime, now: int)
    ensures FirstCode(Standing(p, l, s, now)) == if s.kill then Some(KillSwitchActive)
                                                 else if !Fresh(p, l, now) then Some(ProposalStale) else None
  {
    var checks := Standing(p, l, s, now);
    assert checks[1..] == [checks[1]] && checks[1..][1..] == [];
    assert FirstCode(checks[1..]) == if checks[1].fails then Some(checks[1].code) else None;
  }

  lemma PriceCode(p: Proposal, s: Runtime)
    ensures FirstCode(PriceChecks(p, s))
         == if PriceOf(p, s) <= 0.0 then Some(MarkPriceUnavailable)
            else if p.confidence < 0.3 then Some(LowConfidence) else if s.breaker then Some(DailyLossLimitBreached) else None
  {
    FirstOfThree(Check(PriceOf(p, s) <= 0.0, MarkPriceUnavailable), Check(p.confidence < 0.3, LowConfidence),
                 Check(s.breaker, DailyLossLimitBreached));
  }

  lemma SizeCode(p: Proposal, l: Limits, s: Runtime)
    requires p.stop.Some? && PriceOf(p, s) > 0.0
    ensures FirstCode(SizeChecks(p, l, s) + [Check(l.cap == 0.0, NotionalCapZero)])
         == if Risks(p, s) > l.maxLossAtStop then Some(RiskPerTradeExceeded)
            else if s.recentOrders >= l.maxOrdersPerMinute then Some(OrderRateExceeded)
            else if s.openPositions + s.pendingEntries >= l.maxOpenPositions then Some(MaxPositionsReached)
            else if l.cap == 0.0 then Some(NotionalCapZero) else None
  {
    var size := SizeChecks(p, l, s);
    FirstOfThree(size[0], size[1], size[2]);
    assert size == [size[0], size[1], size[2]];
    FirstOfTwo(size, [Check(l.cap == 0.0, NotionalCapZero)]);
  }

  /** The first failing check of an open that has a price. */
  lemma OpenCode(p: Proposal, l: Limits, s: Runtime)
    requires Opens(p) && p.stop.Some? && PriceOf(p, s) > 0.0
    ensures var c := CheckOpen(p, l, s, PriceOf(p, s), Risks(p, s));
      FirstCode(PriceChecks(p, s) + (DayChecks(p, l, s) + (StopChecks(p, l, s)
                + (SizeChecks(p, l, s) + [Check(l.cap == 0.0, NotionalCapZero)]))))
      == (if c.Some? then c
          else if s.recentOrders >= l.maxOrdersPerMinute then Some(OrderRateExceeded)
          else if s.openPositions + s.pendingEntries >= l.maxOpenPositions then Some(MaxPositionsReached)
          else if l.cap == 0.0 then Some(NotionalCapZero) else None)
  {
    var last := SizeChecks(p, l, s) + [Check(l.cap == 0.0, NotionalCapZero)];
    PriceCode(p, s);
    SizeCode(p, l, s);
    CheckOpenIsTheLists(p, l, s);
    FirstOfTwo(StopChecks(p, l, s), last);
    FirstOfTwo(DayChecks(p, l, s), StopChecks(p, l, s) + last);
    FirstOfTwo(PriceChecks(p, s), DayChecks(p, l, s) + (StopChecks(p, l, s) + last));
  }

  /** A rejected well-formed proposal carries one code: that of the first check it fails. */
  lemma RejectsWithTheFirstCode(p: Proposal, l: Limits, s: Runtime, now: int)
    requires WellFormed(p)
    ensures var v, code := Evaluate(p, l, s, now), FirstCode(ChecksOf(p, l, s, now));
      && (v.decision.Reject? <==> code.Some?)
      && (v.decision.Reject? ==> v == Verdict(Reject, None, [code.value]))
  {
    ValidExactly(p);
    StandingCode(p, l, s, now);
    if p.action == Hold {
    } else if !Opens(p) {
      FirstOfTwo(Standing(p, l, s, now), [Check(s.recentOrders >= l.maxOrdersPerMinute, OrderRateExceeded)]);
    } else if PriceOf(p, s) <= 0.0 {
      PriceCode(p, s);
      FirstOfTwo(Standing(p, l, s, now), PriceChecks(p, s));
    } else {
      OpenCode(p, l, s);
      DistanceIsAbs(p, s);
      FirstOfTwo(Standing(p, l, s, now),
                 PriceChecks(p, s) + (DayChecks(p, l, s) + (StopChecks(p, l, s)
                 + (SizeChecks(p, l, s) + [Check(l.cap == 0.0, NotionalCapZero)]))));
    }
  }

  /** A proposal that is not well formed is rejected without a size: for its version alone, if that is unknown. */
  lemma RejectsMalformed(p: Proposal, l: Limits, s: Runtime, now: int)
    requires !WellFormed(p)
    ensures var v := Evaluate(p, l, s, now);
      && v.decision.Reject? && v.clipped.None? && v.reasons != []
      && (p.version != "1.0" ==> v.reasons == [UnsupportedSchemaVersion])
  {
    ValidExactly(p);
  }

  // ----- What an executed open may lose -----

  /**
   An executed open goes through at the smaller of its size and the cap. As long as a
   larger order loses more, so for every fee rate from zero up, what it may lose at its
   stop is within the bound per trade, and with the day's loss and the reserved exposure
   under the daily limit.
   */
  lemma ExecutedLosesWithin(p: Proposal, l: Limits, s: Runtime, now: int)
    requires Opens(p) && Executes(Evaluate(p, l, s, now))
    ensures p.stop.Some? && PriceOf(p, s) > 0.0
    ensures var price, size := PriceOf(p, s), Min(p.size, l.cap);
      && (if p.size > l.cap then Evaluate(p, l, s, now).clipped == Some(size) else Evaluate(p, l, s, now).clipped.None?)
      && (LossTo(p, price, p.stop.value) + s.feeRate * price >= 0.0 ==>
            && Loses(p, s, size) <= l.maxLossAtStop
            && Max(0.0, -s.dailyPnl) + s.reserved + Loses(p, s, size) < l.dailyLossLimit)
  {
    AdmitsExactly(p, l, s, now);
    AdmittedVerdict(p, l, s, now);
    ExecutedOpenIsBounded(p, l, s, now);
    ExecutesAtTheCap(p, l, s, now);
    LosesIsTheWorstCase(p, s, Min(p.size, l.cap));
    assert DailyLoss(s) == Max(0.0, -s.dailyPnl) + s.reserved;
  }
}
