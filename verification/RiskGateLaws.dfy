/**
 Relational laws of the gate: looser limits never turn an admission into a rejection,
 and what an executed open may lose.
 */
module RiskGateLaws {
  import opened Wrappers
  import opened Decimals
  import opened RiskGate

  // ----- Looser limits -----

  predicate LooserEnvelope(a: Option<Envelope>, b: Option<Envelope>) {
    b.None? || (a.Some? && a.value.maxSize <= b.value.maxSize && a.value.symbols <= b.value.symbols)
  }

  /** b is at least as permissive as a, limit by limit; the staleness bound is compared apart. */
  predicate Looser(a: Limits, b: Limits) {
    && a.whitelist <= b.whitelist && a.maxOpenPositions <= b.maxOpenPositions && a.cap <= b.cap
    && a.dailyLossLimit <= b.dailyLossLimit && a.maxDrawdownPct <= b.maxDrawdownPct
    && a.maxLossAtStop <= b.maxLossAtStop && a.minStopPct >= b.minStopPct && a.maxStopPct <= b.maxStopPct
    && a.maxOrdersPerMinute <= b.maxOrdersPerMinute && LooserEnvelope(a.envelope, b.envelope)
  }

  /** The staleness bound in force: a bound that is not positive means the default. */
  function Staleness(l: Limits): int {
    if l.staleness <= 0 then DEFAULT_STALENESS else l.staleness
  }

  /** Raising a negative cap to exactly zero turns clipping into rejection. */
  predicate CapHolds(a: Limits, b: Limits) {
    a.cap >= 0.0 || b.cap != 0.0
  }

  lemma DrawdownLoosens(a: Limits, b: Limits, s: Runtime)
    requires a.maxDrawdownPct <= b.maxDrawdownPct && !DrawnDown(a, s)
    ensures !DrawnDown(b, s)
  {
    if s.peak > 0.0 {
      Scale(a.maxDrawdownPct, b.maxDrawdownPct, s.peak);
    }
  }

  lemma OpeningLoosens(p: Proposal, a: Limits, b: Limits, s: Runtime)
    requires Looser(a, b) && CapHolds(a, b) && OpensWithin(p, a, s)
    ensures OpensWithin(p, b, s)
  {
    DrawdownLoosens(a, b, s);
  }

  /** Loosening never turns an admission into a rejection, given the staleness in force and the cap. */
  lemma LooserNeverRejects(p: Proposal, a: Limits, b: Limits, s: Runtime, now: int)
    requires Looser(a, b) && Staleness(a) <= Staleness(b) && CapHolds(a, b)
    requires !Evaluate(p, a, s, now).decision.Reject?
    ensures !Evaluate(p, b, s, now).decision.Reject?
  {
    RejectsExactlyOutside(p, a, s, now);
    RejectsExactlyOutside(p, b, s, now);
    if IsOpen(p.action) {
      OpeningLoosens(p, a, b, s);
    }
  }

  /** Under these limits some open is admitted: a symbol to trade and a stop distance that is allowed. */
  ghost predicate CanOpen(l: Limits) {
    l.whitelist != {} && l.minStopPct <= l.maxStopPct && l.maxStopPct > 0.0 && l.cap != 0.0
  }

  const HOLD := Proposal(VERSION, 0, 0, "A/B", Hold, 0.9, 0.0, Market, None, None, None)

  /** A hold at the edge of a staleness bound is stale under any tighter one. */
  lemma EdgeOfStaleness(a: Limits, b: Limits, s: Runtime)
    requires Staleness(a) > Staleness(b) && !s.kill
    ensures !Evaluate(HOLD, a, s, Staleness(a) * SECOND).decision.Reject?
    ensures Evaluate(HOLD, b, s, Staleness(a) * SECOND).decision.Reject?
  {
    assert Validate(HOLD) == [];
  }

  /** A short from 100 with its stop at the widest allowed distance. */
  function WidestShort(l: Limits, symbol: string): Proposal {
    Proposal(VERSION, 0, 0, symbol, OpenShort, 0.9, 1.0, Market, None, Some(100.0 + l.maxStopPct), None)
  }

  /** A calm market at 100 in which that order loses less than both bounds. */
  function CalmFor(l: Limits): Runtime {
    Runtime(false, false, 3, 0.0, 0.0, 0.0, 0.0, l.maxOpenPositions - 1, 0, l.maxOrdersPerMinute - 1, 100.0,
            Min(l.maxLossAtStop, l.dailyLossLimit - 1.0) - l.maxStopPct / 100.0)
  }

  lemma WidestShortOpens(l: Limits, symbol: string)
    requires CanOpen(l) && symbol in l.whitelist
    ensures !Evaluate(WidestShort(l, symbol), l, CalmFor(l), 0).decision.Reject?
  {
    var p, s := WidestShort(l, symbol), CalmFor(l);
    assert Validate(p) == [];
    assert WorstCase(1.0, 100.0, p.stop.value, s.feeRate) == Min(l.maxLossAtStop, l.dailyLossLimit - 1.0);
    assert StopDistancePct(100.0, p.stop.value) == l.maxStopPct;
    RejectsExactlyOutside(p, l, s, 0);
  }

  /**
   Exactly when loosening is safe for every proposal, state and time: the staleness in
   force does not fall, and, if the tighter limits admit any open at all, a negative cap
   is not raised to zero.
   */
  lemma LooseningIsSafeExactly(a: Limits, b: Limits)
    requires Looser(a, b)
    ensures (forall p, s, now :: Evaluate(p, b, s, now).decision.Reject? ==> Evaluate(p, a, s, now).decision.Reject?)
            <==> Staleness(a) <= Staleness(b) && (CanOpen(a) ==> CapHolds(a, b))
  {
    if Staleness(a) > Staleness(b) {
      EdgeOfStaleness(a, b, CalmFor(a));
    } else if CanOpen(a) && !CapHolds(a, b) {
      var symbol :| symbol in a.whitelist;
      WidestShortOpens(a, symbol);
      RejectsExactlyOutside(WidestShort(a, symbol), b, CalmFor(a), 0);
    } else {
      forall p, s, now | !Evaluate(p, a, s, now).decision.Reject?
        ensures !Evaluate(p, b, s, now).decision.Reject?
      {
        SafeLoosening(p, a, b, s, now);
      }
    }
  }

  lemma SafeLoosening(p: Proposal, a: Limits, b: Limits, s: Runtime, now: int)
    requires Looser(a, b) && Staleness(a) <= Staleness(b) && (CanOpen(a) ==> CapHolds(a, b))
    requires !Evaluate(p, a, s, now).decision.Reject?
    ensures !Evaluate(p, b, s, now).decision.Reject?
  {
    RejectsExactlyOutside(p, a, s, now);
    RejectsExactlyOutside(p, b, s, now);
    if IsOpen(p.action) {
      StopIsApart(p, s);
      LooserNeverRejects(p, a, b, s, now);
    }
  }

  /** A placed stop is some way off the entry, so only limits that can open admit an open. */
  lemma StopIsApart(p: Proposal, s: Runtime)
    requires EntryPrice(p, s) > 0.0 && p.stop.Some? && IsOpen(p.action)
    requires CheckStopAndTarget(p.action, EntryPrice(p, s), p.stop.value, p.take) == []
    ensures StopDistancePct(EntryPrice(p, s), p.stop.value) > 0.0
  {
    assert |CheckStopAndTarget(p.action, EntryPrice(p, s), p.stop.value, p.take)| == 0;
    var entry, d := EntryPrice(p, s), Abs(EntryPrice(p, s) - p.stop.value) * 100.0;
    DivideBack(d, entry);
  }

  predicate Executes(v: Verdict) {
    v.decision.Approve? || v.decision.Clip?
  }

  /** The size an executed verdict lets through. */
  function ExecutedSize(p: Proposal, v: Verdict): real {
    if v.clipped.Some? then v.clipped.value else p.size
  }

  /** An executed open goes through at its size or the cap, whichever is smaller. */
  lemma ExecutesAtTheCap(p: Proposal, l: Limits, s: Runtime, now: int)
    requires IsOpen(p.action) && Executes(Evaluate(p, l, s, now))
    ensures var v := Evaluate(p, l, s, now);
      && ExecutedSize(p, v) == Min(p.size, l.cap)
      && (v.decision.Clip? <==> p.size > l.cap)
      && OpensWithin(p, l, s) && !OutsideEnvelope(p, l, s, ExecutedSize(p, v))
  {
    RejectsExactlyOutside(p, l, s, now);
  }

  /** Loosening never lowers the size of an open that executes under both limits. */
  lemma LooserNeverShrinks(p: Proposal, a: Limits, b: Limits, s: Runtime, now: int)
    requires Looser(a, b) && IsOpen(p.action)
    requires Executes(Evaluate(p, a, s, now)) && Executes(Evaluate(p, b, s, now))
    ensures ExecutedSize(p, Evaluate(p, a, s, now)) <= ExecutedSize(p, Evaluate(p, b, s, now))
  {
    ExecutesAtTheCap(p, a, s, now);
    ExecutesAtTheCap(p, b, s, now);
  }

  // ----- What an executed open may lose -----

  /** How the worst case changes with the size, times the entry price. */
  function Slope(entry: real, stop: real, feeRate: real): real {
    Abs(entry - stop) + feeRate * entry
  }

  lemma WorstCaseIsLinear(size: real, entry: real, stop: real, feeRate: real)
    requires entry > 0.0
    ensures WorstCase(size, entry, stop, feeRate) * entry == size * Slope(entry, stop, feeRate)
  {
    var d := Abs(entry - stop);
    DivideBack(size * d, entry);
    assert StopLoss(size, d, entry) * entry == size * d;
    assert Fee(size, feeRate) * entry == size * (feeRate * entry);
  }

  /** A larger order has a larger worst case as long as the slope is not negative. */
  lemma WorstCaseGrows(x: real, y: real, entry: real, stop: real, feeRate: real)
    requires x <= y && entry > 0.0 && Slope(entry, stop, feeRate) >= 0.0
    ensures WorstCase(x, entry, stop, feeRate) <= WorstCase(y, entry, stop, feeRate)
  {
    var k := Slope(entry, stop, feeRate);
    WorstCaseIsLinear(x, entry, stop, feeRate);
    WorstCaseIsLinear(y, entry, stop, feeRate);
    if k > 0.0 {
      Scale(x, y, k);
    }
    Scale(WorstCase(x, entry, stop, feeRate), WorstCase(y, entry, stop, feeRate), entry);
  }

  /** With a negative slope, half an order has the larger worst case, and it is negative. */
  lemma HalfLosesMore(size: real, entry: real, stop: real, feeRate: real)
    requires size > 0.0 && entry > 0.0 && Slope(entry, stop, feeRate) < 0.0
    ensures WorstCase(size, entry, stop, feeRate) < WorstCase(size / 2.0, entry, stop, feeRate)
  {
    var k := -Slope(entry, stop, feeRate);
    WorstCaseIsLinear(size, entry, stop, feeRate);
    WorstCaseIsLinear(size / 2.0, entry, stop, feeRate);
    Scale(size, size / 2.0, k);
    Scale(WorstCase(size / 2.0, entry, stop, feeRate), WorstCase(size, entry, stop, feeRate), entry);
  }

  /** The worst case of what an executed open lets through. */
  function ExecutedWorst(p: Proposal, l: Limits, s: Runtime, now: int): real
    requires p.stop.Some? && EntryPrice(p, s) != 0.0
  {
    WorstCase(ExecutedSize(p, Evaluate(p, l, s, now)), EntryPrice(p, s), p.stop.value, s.feeRate)
  }

  ghost predicate LosesWithin(p: Proposal, l: Limits, s: Runtime, now: int) {
    Executes(Evaluate(p, l, s, now)) ==>
      p.stop.Some? && EntryPrice(p, s) > 0.0 && ExecutedWorst(p, l, s, now) <= l.maxLossAtStop
  }

  ghost predicate KeepsTheDay(p: Proposal, l: Limits, s: Runtime, now: int) {
    Executes(Evaluate(p, l, s, now)) ==>
      p.stop.Some? && EntryPrice(p, s) > 0.0 && DailyLoss(s) + ExecutedWorst(p, l, s, now) < l.dailyLossLimit
  }

  /** The proposal and the state leave an open to the limits. */
  predicate Openable(p: Proposal, s: Runtime) {
    && Validate(p) == [] && IsOpen(p.action) && p.stop.Some? && p.size > 0.0 && EntryPrice(p, s) > 0.0
    && !s.kill && !s.breaker && p.confidence >= LOW_CONFIDENCE
    && CheckStopAndTarget(p.action, EntryPrice(p, s), p.stop.value, p.take) == []
  }

  predicate SlopeHolds(p: Proposal, s: Runtime)
    requires p.stop.Some?
  {
    Slope(EntryPrice(p, s), p.stop.value, s.feeRate) >= 0.0
  }

  /**
   Each approved or clipped open, at its executed size, is at most the cap, loses at
   most the per-trade bound at its stop, and keeps the day's loss with reserved
   exposure under the daily limit, as long as its worst case grows with its size. A fee
   rate that is not negative always makes it grow.
   */
  lemma ExecutedOpenIsBounded(p: Proposal, l: Limits, s: Runtime, now: int)
    requires IsOpen(p.action) && Executes(Evaluate(p, l, s, now))
    ensures p.stop.Some? && EntryPrice(p, s) > 0.0 && Openable(p, s)
    ensures ExecutedSize(p, Evaluate(p, l, s, now)) <= l.cap
    ensures SlopeHolds(p, s) ==> LosesWithin(p, l, s, now) && KeepsTheDay(p, l, s, now)
    ensures s.feeRate >= 0.0 ==> SlopeHolds(p, s)
  {
    ExecutesAtTheCap(p, l, s, now);
    ValidIsSound(p);
    if SlopeHolds(p, s) {
      WorstCaseGrows(ExecutedSize(p, Evaluate(p, l, s, now)), p.size, EntryPrice(p, s), p.stop.value, s.feeRate);
    }
    if s.feeRate > 0.0 {
      Scale(0.0, s.feeRate, EntryPrice(p, s));
    }
  }

  /** Limits that leave everything but the cap and the two loss bounds open to one proposal. */
  function WideLimits(p: Proposal, s: Runtime, cap: real, maxLoss: real, dailyLimit: real): Limits
    requires p.stop.Some? && EntryPrice(p, s) > 0.0
  {
    var pct := StopDistancePct(EntryPrice(p, s), p.stop.value);
    var drawdown := if s.peak > 0.0 then (s.peak - s.equity) * 100.0 / s.peak else 0.0;
    Limits({p.symbol}, s.openPositions + s.pendingEntries + 1, cap, dailyLimit, drawdown, maxLoss, pct, pct,
           s.recentOrders + 1, false, DEFAULT_STALENESS, None)
  }

  lemma WideLimitsAdmit(p: Proposal, s: Runtime, cap: real, maxLoss: real, dailyLimit: real)
    requires Openable(p, s) && cap != 0.0
    requires var worst := WorstCase(p.size, EntryPrice(p, s), p.stop.value, s.feeRate);
      worst <= maxLoss && DailyLoss(s) + worst < dailyLimit
    ensures var v := Evaluate(p, WideLimits(p, s, cap, maxLoss, dailyLimit), s, p.created);
      Executes(v) && ExecutedSize(p, v) == Min(p.size, cap)
  {
    var l := WideLimits(p, s, cap, maxLoss, dailyLimit);
    if s.peak > 0.0 {
      DivideBack((s.peak - s.equity) * 100.0, s.peak);
    }
    RejectsExactlyOutside(p, l, s, p.created);
    VerdictShape(p, l, s, p.created);
    ExecutesAtTheCap(p, l, s, p.created);
  }

  /** With a negative slope, capping the order at half its size breaks either bound. */
  lemma HalfBreaksTheBounds(p: Proposal, s: Runtime)
    requires Openable(p, s) && !SlopeHolds(p, s)
    ensures exists l, now :: !LosesWithin(p, l, s, now)
    ensures exists l, now :: !KeepsTheDay(p, l, s, now)
  {
    var entry, stop, half := EntryPrice(p, s), p.stop.value, p.size / 2.0;
    var worst, most := WorstCase(p.size, entry, stop, s.feeRate), WorstCase(half, entry, stop, s.feeRate);
    HalfLosesMore(p.size, entry, stop, s.feeRate);
    WideLimitsAdmit(p, s, half, worst, DailyLoss(s) + worst + 1.0);
    assert !LosesWithin(p, WideLimits(p, s, half, worst, DailyLoss(s) + worst + 1.0), s, p.created);
    WideLimitsAdmit(p, s, half, worst, DailyLoss(s) + most);
    assert !KeepsTheDay(p, WideLimits(p, s, half, worst, DailyLoss(s) + most), s, p.created);
  }

  /**
   Exactly when both loss bounds hold for an open under all limits and at all times: its
   worst case grows with its size, or the gate can never execute it.
   */
  lemma LossBoundsHoldExactly(p: Proposal, s: Runtime)
    requires IsOpen(p.action)
    ensures (forall l, now :: LosesWithin(p, l, s, now)) <==> (Openable(p, s) ==> SlopeHolds(p, s))
    ensures (forall l, now :: KeepsTheDay(p, l, s, now)) <==> (Openable(p, s) ==> SlopeHolds(p, s))
  {
    if Openable(p, s) && !SlopeHolds(p, s) {
      HalfBreaksTheBounds(p, s);
    } else {
      forall l, now | Executes(Evaluate(p, l, s, now))
        ensures LosesWithin(p, l, s, now) && KeepsTheDay(p, l, s, now)
      {
        ExecutedOpenIsBounded(p, l, s, now);
      }
    }
  }

  /** An executed open has its stop on the losing side and its target on the winning side of the entry. */
  lemma ExecutedOpenIsPlaced(p: Proposal, l: Limits, s: Runtime, now: int)
    requires IsOpen(p.action) && Executes(Evaluate(p, l, s, now))
    ensures p.stop.Some?
    ensures var entry := EntryPrice(p, s);
      && (p.action.OpenLong? ==> p.stop.value < entry && (p.take.Some? ==> p.take.value > entry))
      && (p.action.OpenShort? ==> p.stop.value > entry && (p.take.Some? ==> p.take.value < entry))
  {
    ExecutesAtTheCap(p, l, s, now);
    assert |CheckStopAndTarget(p.action, EntryPrice(p, s), p.stop.value, p.take)| == 0;
  }

  /** The required-stop switch changes no verdict: an open without a stop is invalid before it is read. */
  lemma RequireStopIsRedundant(p: Proposal, l: Limits, s: Runtime, now: int)
    ensures Evaluate(p, l, s, now) == Evaluate(p, l.(requireStop := !l.requireStop), s, now)
  {
    if Validate(p) == [] {
      ValidIsSound(p);
      if IsOpen(p.action) && EntryPrice(p, s) > 0.0 {
        var worst := WorstCase(p.size, EntryPrice(p, s), p.stop.value, s.feeRate);
        CheckIgnoresTheSwitch(p, l, s, EntryPrice(p, s), worst);
      }
    }
  }

  lemma CheckIgnoresTheSwitch(p: Proposal, l: Limits, s: Runtime, entry: real, worst: real)
    requires entry > 0.0 && p.stop.Some?
    ensures CheckOpen(p, l, s, entry, worst) == CheckOpen(p, l.(requireStop := !l.requireStop), s, entry, worst)
  {
  }

  /** A clipped size and clip or escalation reasons come only with their decisions. */
  lemma VerdictShape(p: Proposal, l: Limits, s: Runtime, now: int)
    ensures var v := Evaluate(p, l, s, now);
      && (v.clipped.Some? <==> v.decision.Clip?)
      && (v.decision.Approve? <==> v.reasons == [])
      && (v.decision.Clip? ==> v.reasons == [NotionalCapClipped])
      && (v.decision.Escalate? ==> v.reasons[|v.reasons| - 1] == EscalatedAboveEnvelope
                                   && IsOpen(p.action) && s.autonomy == L2 && l.envelope.Some?)
  {
    if Validate(p) == [] {
      ValidIsSound(p);
    }
  }

  // ----- Where the conditions are needed -----

  const LONG := Proposal(VERSION, 0, 0, "A/B", OpenLong, 0.9, 100.0, Market, None, Some(90.0), None)
  const OPEN := Limits({"A/B"}, 5, 1000.0, 1000.0, 50.0, 1000.0, 1.0, 50.0, 10, true, 60, None)
  const CALM := Runtime(false, false, 3, 1000.0, 1000.0, 0.0, 0.0, 0, 0, 0, 100.0, 0.0)

  /** The example proposal opens under the example limits for as long as it is fresh. */
  lemma ExampleIsAdmitted(l: Limits, now: int)
    requires l.(cap := 1000.0, staleness := 60) == OPEN && l.cap != 0.0 && !Stale(LONG, l, now)
    ensures !Evaluate(LONG, l, CALM, now).decision.Reject?
  {
    RejectsExactlyOutside(LONG, l, CALM, now);
    assert Validate(LONG) == [];
    assert WorstCase(100.0, 100.0, 90.0, 0.0) == 10.0;
    assert StopDistancePct(100.0, 90.0) == 10.0;
  }

  /** A staleness bound of zero means the default of 60 s: raising it to 1 s tightens it. */
  lemma ZeroStalenessLoosensIntoRejection()
    ensures var a, b := OPEN.(staleness := 0), OPEN.(staleness := 1); var now := 30 * SECOND;
      && Looser(a, b) && !Evaluate(LONG, a, CALM, now).decision.Reject?
      && Evaluate(LONG, b, CALM, now).decision.Reject?
  {
    ExampleIsAdmitted(OPEN.(staleness := 0), 30 * SECOND);
    RejectsExactlyOutside(LONG, OPEN.(staleness := 1), CALM, 30 * SECOND);
  }

  /** A negative cap clips where a zero cap rejects. */
  lemma NegativeCapLoosensIntoRejection()
    ensures var a, b := OPEN.(cap := -1.0), OPEN.(cap := 0.0);
      && Looser(a, b) && Evaluate(LONG, a, CALM, 0) == Verdict(Clip, Some(-1.0), [NotionalCapClipped])
      && Evaluate(LONG, b, CALM, 0).decision.Reject?
  {
    ExampleIsAdmitted(OPEN.(cap := -1.0), 0);
    VerdictShape(LONG, OPEN.(cap := -1.0), CALM, 0);
    ExecutesAtTheCap(LONG, OPEN.(cap := -1.0), CALM, 0);
    RejectsExactlyOutside(LONG, OPEN.(cap := 0.0), CALM, 0);
  }

  /**
   A fee rebate larger than the stop distance breaks the daily limit under ordinary
   limits: the whole order would pass with room to spare, the clipped one does not.
   */
  lemma LargeRebateBreaksTheDay()
    ensures var s, l := CALM.(feeRate := -0.2, dailyPnl := -100.0), OPEN.(cap := 50.0, dailyLossLimit := 95.0);
      && Evaluate(LONG, l, s, 0) == Verdict(Clip, Some(50.0), [NotionalCapClipped])
      && DailyLoss(s) + WorstCase(50.0, EntryPrice(LONG, s), LONG.stop.value, s.feeRate) >= l.dailyLossLimit
  {
    var s, l := CALM.(feeRate := -0.2, dailyPnl := -100.0), OPEN.(cap := 50.0, dailyLossLimit := 95.0);
    RejectsExactlyOutside(LONG, l, s, 0);
    assert Validate(LONG) == [];
    assert WorstCase(100.0, 100.0, 90.0, -0.2) == -10.0;
    assert WorstCase(50.0, 100.0, 90.0, -0.2) == -5.0;
    assert StopDistancePct(100.0, 90.0) == 10.0;
    VerdictShape(LONG, l, s, 0);
    ExecutesAtTheCap(LONG, l, s, 0);
  }
}
