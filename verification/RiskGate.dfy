/**
 The risk gate: one verdict for every proposal, from its limits, the runtime state
 and the clock. Durations are nanoseconds; division is exact.
 */
module RiskGate {
  import opened Wrappers
  import opened Decimals

  datatype Code =
    | UnsupportedSchemaVersion | SchemaInvalid | MissingStopLoss | InvalidSize
    | InvalidStopPlacement | InvalidTakeProfit | KillSwitchActive | ProposalStale | MarkPriceUnavailable
    | LowConfidence | DailyLossLimitBreached | MaxDrawdownBreached | SymbolNotWhitelisted | RiskPerTradeExceeded
    | OrderRateExceeded | MaxPositionsReached | NotionalCapZero | NotionalCapClipped | EscalatedAboveEnvelope

  datatype Action = OpenLong | OpenShort | Close | Hold | Other(name: string)

  predicate IsOpen(a: Action) {
    a.OpenLong? || a.OpenShort?
  }

  datatype EntryType = Limit | Market | Unlisted(name: string)

  /** faults counts the violations of the remaining schema rules (ids, symbol shape, lengths, summaries, costs). */
  datatype Proposal = Proposal(version: string, faults: nat, created: int, symbol: string, action: Action,
                               confidence: real, size: real, entry: EntryType, limitPrice: Option<real>,
                               stop: Option<real>, take: Option<real>)

  datatype Envelope = Envelope(maxSize: real, symbols: set<string>)

  datatype Limits = Limits(whitelist: set<string>, maxOpenPositions: int, cap: real, dailyLossLimit: real,
                           maxDrawdownPct: real, maxLossAtStop: real, minStopPct: real, maxStopPct: real,
                           maxOrdersPerMinute: int, requireStop: bool, staleness: int, envelope: Option<Envelope>)

  datatype Runtime = Runtime(kill: bool, breaker: bool, autonomy: int, equity: real, peak: real,
                             dailyPnl: real, reserved: real, openPositions: int, pendingEntries: int,
                             recentOrders: int, mark: real, feeRate: real)

  datatype Decision = Approve | Reject | Clip | Escalate

  datatype Verdict = Verdict(decision: Decision, clipped: Option<real>, reasons: seq<Code>)

  const VERSION := "1.0"
  const SECOND := 1000000000
  const DEFAULT_STALENESS := 60
  const FUTURE_SKEW := 5
  const LOW_CONFIDENCE := 0.3
  const L2 := 2

  // ----- Contract rules -----

  function CheckStopAndTarget(action: Action, entry: real, stop: real, take: Option<real>): seq<Code> {
    if entry <= 0.0 then [InvalidStopPlacement]
    else match action
         case OpenLong => (if stop < entry then [] else [InvalidStopPlacement])
                          + (if take.Some? && take.value <= entry then [InvalidTakeProfit] else [])
         case OpenShort => (if stop > entry then [] else [InvalidStopPlacement])
                           + (if take.Some? && take.value >= entry then [InvalidTakeProfit] else [])
         case _ => []
  }

  function If(fault: bool, code: Code): seq<Code> {
    if fault then [code] else []
  }

  function ValidateOrderFields(p: Proposal): seq<Code> {
    If((p.entry.Limit? && p.limitPrice.None?) || (p.entry.Market? && p.limitPrice.Some?) || p.entry.Unlisted?,
       SchemaInvalid)
    + (if IsOpen(p.action) then If(p.stop.None?, MissingStopLoss) + If(p.size <= 0.0, InvalidSize)
       else If(p.stop.Some?, SchemaInvalid) + If(p.take.Some?, SchemaInvalid)
            + If(p.action.Hold? && p.size != 0.0, InvalidSize))
    + (if p.entry.Limit? && p.limitPrice.Some? && p.stop.Some?
       then CheckStopAndTarget(p.action, p.limitPrice.value, p.stop.value, p.take) else [])
  }

  function Validate(p: Proposal): seq<Code> {
    If(p.version != VERSION, UnsupportedSchemaVersion)
    + seq(p.faults, i => SchemaInvalid)
    + If(p.action.Other?, SchemaInvalid)
    + If(p.confidence < 0.0 || p.confidence > 1.0, SchemaInvalid)
    + ValidateOrderFields(p)
  }

  // ----- Arithmetic of an order -----

  /** The limit price of a limit entry, else the mark. */
  function EntryPrice(p: Proposal, s: Runtime): real {
    if p.entry.Limit? && p.limitPrice.Some? then p.limitPrice.value else s.mark
  }

  function StopLoss(size: real, distance: real, entry: real): real
    requires entry != 0.0
  {
    size * distance / entry
  }

  function Fee(size: real, feeRate: real): real {
    size * feeRate
  }

  /** The loss at the stop plus the estimated fee. */
  function WorstCase(size: real, entry: real, stop: real, feeRate: real): real
    requires entry != 0.0
  {
    StopLoss(size, Abs(entry - stop), entry) + Fee(size, feeRate)
  }

  /** Loss of the day so far plus the exposure already reserved. */
  function DailyLoss(s: Runtime): real {
    (if s.dailyPnl < 0.0 then -s.dailyPnl else 0.0) + s.reserved
  }

  function StopDistancePct(entry: real, stop: real): real
    requires entry != 0.0
  {
    Abs(entry - stop) * 100.0 / entry
  }

  predicate DrawnDown(l: Limits, s: Runtime) {
    s.peak > 0.0 && (s.peak - s.equity) * 100.0 > l.maxDrawdownPct * s.peak
  }

  // ----- The checks -----

  function Stale(p: Proposal, l: Limits, now: int): bool {
    var threshold := if l.staleness <= 0 then DEFAULT_STALENESS else l.staleness;
    now - p.created > threshold * SECOND || p.created - now > FUTURE_SKEW * SECOND
  }

  /** The open-only checks; None when all pass. */
  function CheckOpen(p: Proposal, l: Limits, s: Runtime, entry: real, worst: real): Option<Code>
    requires entry > 0.0
  {
    if p.confidence < LOW_CONFIDENCE then Some(LowConfidence)
    else if s.breaker then Some(DailyLossLimitBreached)
    else if DailyLoss(s) + worst >= l.dailyLossLimit then Some(DailyLossLimitBreached)
    else if DrawnDown(l, s) then Some(MaxDrawdownBreached)
    else if p.symbol !in l.whitelist then Some(SymbolNotWhitelisted)
    else if p.stop.None? then (if l.requireStop then Some(MissingStopLoss) else None)
    else
      var faults := CheckStopAndTarget(p.action, entry, p.stop.value, p.take);
      if faults != [] then Some(faults[0])
      else
        var pct := StopDistancePct(entry, p.stop.value);
        if pct < l.minStopPct || pct > l.maxStopPct then Some(InvalidStopPlacement)
        else if worst > l.maxLossAtStop then Some(RiskPerTradeExceeded)
        else None
  }

  /** An L2 strategy may execute within its envelope only. */
  predicate OutsideEnvelope(p: Proposal, l: Limits, s: Runtime, size: real) {
    s.autonomy == L2 && l.envelope.Some?
    && (size > l.envelope.value.maxSize || p.symbol !in l.envelope.value.symbols)
  }

  function Rejected(code: Code): Verdict {
    Verdict(Reject, None, [code])
  }

  const Approved := Verdict(Approve, None, [])

  /** The ordered steps; the first failing check decides. */
  function Evaluate(p: Proposal, l: Limits, s: Runtime, now: int): Verdict {
    if p.version != VERSION then Rejected(UnsupportedSchemaVersion)
    else if Validate(p) != [] then Verdict(Reject, None, Validate(p))
    else if s.kill then Rejected(KillSwitchActive)
    else if Stale(p, l, now) then Rejected(ProposalStale)
    else if p.action.Hold? then Approved
    else
      var entry := EntryPrice(p, s);
      if IsOpen(p.action) && entry <= 0.0 then Rejected(MarkPriceUnavailable)
      else if p.action.Close? then
        if s.recentOrders >= l.maxOrdersPerMinute then Rejected(OrderRateExceeded) else Approved
      else
        EvaluateOpen(p, l, s, entry)
  }

  function EvaluateOpen(p: Proposal, l: Limits, s: Runtime, entry: real): Verdict
    requires entry > 0.0
  {
    var worst := if p.stop.Some? then WorstCase(p.size, entry, p.stop.value, s.feeRate) else 0.0;
    var fault := CheckOpen(p, l, s, entry, worst);
    if fault.Some? then Rejected(fault.value)
    else if s.recentOrders >= l.maxOrdersPerMinute then Rejected(OrderRateExceeded)
    else if s.openPositions + s.pendingEntries >= l.maxOpenPositions then Rejected(MaxPositionsReached)
    else if l.cap == 0.0 then Rejected(NotionalCapZero)
    else
      var size := if p.size > l.cap then l.cap else p.size;
      var clip := if p.size > l.cap then [NotionalCapClipped] else [];
      if OutsideEnvelope(p, l, s, size) then Verdict(Escalate, None, clip + [EscalatedAboveEnvelope])
      else if p.size > l.cap then Verdict(Clip, Some(size), clip)
      else Approved
  }

  // ----- When the gate does not reject -----

  lemma ValidIsSound(p: Proposal)
    requires Validate(p) == []
    ensures p.version == VERSION && !p.action.Other? && 0.0 <= p.confidence <= 1.0
    ensures IsOpen(p.action) ==> p.stop.Some? && p.size > 0.0
  {
    assert |Validate(p)| == 0;
  }

  /** The gate's opening conditions, in no particular order; the required-stop switch plays no part. */
  predicate OpensWithin(p: Proposal, l: Limits, s: Runtime) {
    var entry := EntryPrice(p, s);
    && entry > 0.0 && p.stop.Some?
    && p.confidence >= LOW_CONFIDENCE && !s.breaker && !DrawnDown(l, s) && p.symbol in l.whitelist
    && DailyLoss(s) + WorstCase(p.size, entry, p.stop.value, s.feeRate) < l.dailyLossLimit
    && CheckStopAndTarget(p.action, entry, p.stop.value, p.take) == []
    && l.minStopPct <= StopDistancePct(entry, p.stop.value) <= l.maxStopPct
    && WorstCase(p.size, entry, p.stop.value, s.feeRate) <= l.maxLossAtStop
    && s.openPositions + s.pendingEntries < l.maxOpenPositions && l.cap != 0.0
  }

  predicate Admits(p: Proposal, l: Limits, s: Runtime, now: int) {
    && Validate(p) == [] && !s.kill && !Stale(p, l, now)
    && (p.action.Hold? || s.recentOrders < l.maxOrdersPerMinute)
    && (IsOpen(p.action) ==> OpensWithin(p, l, s))
  }

  /**
   The chain of early returns is one conjunction: a proposal is not rejected exactly
   when it is valid, not killed, fresh, within the rate unless it holds, and, for an
   open only, within every opening limit. Closes meet none of those.
   */
  lemma RejectsExactlyOutside(p: Proposal, l: Limits, s: Runtime, now: int)
    ensures !Evaluate(p, l, s, now).decision.Reject? <==> Admits(p, l, s, now)
  {
    if Validate(p) == [] {
      ValidIsSound(p);
    }
  }
}
