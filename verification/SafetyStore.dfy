/**
 The append-only safety tables: kill and breaker events, kill clears, served
 markers, alerts, lifecycle transitions and the strategies' current states.

 One connection serves the store, so every method is one atomic step. `Apply` is
 that step as a function on the tables; the class performs it.
 */
module SafetyTables {
  import opened Wrappers

  datatype State = Draft | Paper | LiveL1 | LiveL2 | LiveL3 | Paused | Killed

  predicate IsLive(s: State) {
    s.LiveL1? || s.LiveL2? || s.LiveL3?
  }

  datatype Strategy = Strategy(tenant: string, name: string, state: State)

  datatype Kind = Kill | Breaker

  /** A kill_breaker_events row; None stands for SQL NULL. */
  datatype Event = Event(id: string, kind: Kind, strategy: Option<string>, tenant: Option<string>,
                         epoch: Option<int>, actor: string, at: int)

  datatype Tier = StrategyTier | TenantTier | PlatformTier

  /** A kill_clear_events row. */
  datatype Clear = Clear(id: string, tier: Tier, strategy: Option<string>, tenant: Option<string>,
                         epoch: int, actor: string, at: int)

  datatype Alert = Alert(kind: string, strategy: Option<string>, ref: string, details: string, at: int)

  datatype Transition = Transition(strategy: string, from: State, to: State, actor: string, at: int)

  datatype Db = Db(strategies: map<string, Strategy>, events: seq<Event>, clears: seq<Clear>,
                   effects: seq<string>, alerts: seq<Alert>, transitions: seq<Transition>)

  const EMPTY := Db(map[], [], [], [], [], [])

  /** What a kill binds: one strategy, one tenant's strategies, or every strategy. */
  datatype Scope = OfStrategy(id: string) | OfTenant(id: string) | OfPlatform

  /** The scope's own clause of the kill-row match. */
  predicate Hits(e: Event, scope: Scope) {
    match scope
    case OfStrategy(s) => e.strategy == Some(s)
    case OfTenant(t) => e.strategy.None? && e.tenant == Some(t)
    case OfPlatform => e.strategy.None? && e.tenant.None?
  }

  predicate KillOf(e: Event, scope: Scope) {
    e.kind.Kill? && Hits(e, scope)
  }

  /** The scope's own clause of the clear-row match: scope column plus matching id. */
  predicate Clears(c: Clear, scope: Scope) {
    match scope
    case OfStrategy(s) => c.tier.StrategyTier? && c.strategy == Some(s)
    case OfTenant(t) => c.tier.TenantTier? && c.tenant == Some(t)
    case OfPlatform => c.tier.PlatformTier?
  }

  function MaxOpt(a: Option<int>, b: int): Option<int> {
    if a.None? || a.value < b then Some(b) else a
  }

  function Coalesce(a: Option<int>): int {
    if a.Some? then a.value else 0
  }

  /** MAX(cleared_epoch) over the scope's clears; None when there is none. */
  function MaxCleared(clears: seq<Clear>, scope: Scope): (m: Option<int>)
    ensures m.None? <==> forall i :: 0 <= i < |clears| ==> !Clears(clears[i], scope)
    ensures forall i :: 0 <= i < |clears| && Clears(clears[i], scope) ==> clears[i].epoch <= m.value
    ensures m.Some? ==> exists i :: 0 <= i < |clears| && Clears(clears[i], scope) && clears[i].epoch == m.value
  {
    if clears == [] then None
    else
      var rest, last := MaxCleared(clears[..|clears| - 1], scope), clears[|clears| - 1];
      if Clears(last, scope) then MaxOpt(rest, last.epoch) else rest
  }

  /** The watermark COALESCE(MAX(cleared_epoch), 0). */
  function Watermark(clears: seq<Clear>, scope: Scope): int {
    Coalesce(MaxCleared(clears, scope))
  }

  /** MAX(kill_epoch) over the scope's kill rows. */
  function MaxKilled(events: seq<Event>, scope: Scope): (m: Option<int>)
    ensures forall i :: 0 <= i < |events| && KillOf(events[i], scope) && events[i].epoch.Some? ==>
              m.Some? && events[i].epoch.value <= m.value
    ensures m.Some? ==> exists i :: 0 <= i < |events| && KillOf(events[i], scope) && events[i].epoch == m
  {
    if events == [] then None
    else
      var rest, last := MaxKilled(events[..|events| - 1], scope), events[|events| - 1];
      if KillOf(last, scope) && last.epoch.Some? then MaxOpt(rest, last.epoch.value) else rest
  }

  /** MAX(kill_epoch) over the whole table. */
  function MaxEpoch(events: seq<Event>): (m: Option<int>)
    ensures forall i :: 0 <= i < |events| && events[i].epoch.Some? ==>
              m.Some? && events[i].epoch.value <= m.value
    ensures m.Some? ==> exists i :: 0 <= i < |events| && events[i].epoch == m
  {
    if events == [] then None
    else
      var rest, last := MaxEpoch(events[..|events| - 1]), events[|events| - 1];
      if last.epoch.Some? then MaxOpt(rest, last.epoch.value) else rest
  }

  /** One global epoch counter: COALESCE(MAX(kill_epoch), 0) + 1. */
  function NextEpoch(events: seq<Event>): int {
    Coalesce(MaxEpoch(events)) + 1
  }

  /** Some kill of the scope is above the scope's own watermark. */
  predicate ActiveAt(events: seq<Event>, clears: seq<Clear>, scope: Scope) {
    exists i :: 0 <= i < |events| && KillOf(events[i], scope)
                && events[i].epoch.Some? && events[i].epoch.value > Watermark(clears, scope)
  }

  /** The scopes that bind a strategy; an unknown strategy has no tenant. */
  predicate Binds(strategies: map<string, Strategy>, scope: Scope, id: string) {
    match scope
    case OfStrategy(s) => s == id
    case OfTenant(t) => id in strategies && strategies[id].tenant == t
    case OfPlatform => true
  }

  /** The active-kill predicate, clause by clause. */
  predicate ActiveKill(db: Db, id: string) {
    || ActiveAt(db.events, db.clears, OfStrategy(id))
    || (id in db.strategies && ActiveAt(db.events, db.clears, OfTenant(db.strategies[id].tenant)))
    || ActiveAt(db.events, db.clears, OfPlatform)
  }

  /** The scope's kill rows up to an epoch without a served marker, in row order. */
  function Covered(events: seq<Event>, effects: seq<string>, scope: Scope, upTo: int): (c: seq<Event>)
    ensures forall e :: e in c <==> e in events && KillOf(e, scope) && e.id !in effects
                                    && e.epoch.Some? && e.epoch.value <= upTo
  {
    if events == [] then []
    else
      var rest, last := Covered(events[..|events| - 1], effects, scope, upTo), events[|events| - 1];
      if KillOf(last, scope) && last.epoch.Some? && last.epoch.value <= upTo && last.id !in effects
      then rest + [last] else rest
  }

  function Ids(events: seq<Event>): (ids: seq<string>)
    ensures |ids| == |events| && forall i :: 0 <= i < |events| ==> ids[i] == events[i].id
  {
    seq(|events|, i requires 0 <= i < |events| => events[i].id)
  }

  function SupersedeAlerts(events: seq<Event>, clearId: string, at: int): seq<Alert> {
    seq(|events|, i requires 0 <= i < |events| =>
      Alert("kill_effects_superseded", events[i].strategy, events[i].id, clearId, at))
  }

  // ----- The operator's kill view -----

  function ScopeOf(e: Event): (scope: Scope)
    ensures forall s :: Hits(e, s) <==> s == scope
  {
    if e.strategy.Some? then OfStrategy(e.strategy.value)
    else if e.tenant.Some? then OfTenant(e.tenant.value)
    else OfPlatform
  }

  /** The newest clear covering an epoch: highest cleared_epoch, then the later row. */
  function NewestCovering(clears: seq<Clear>, scope: Scope, epoch: int): (c: Option<Clear>)
    ensures c.Some? ==> c.value in clears && Clears(c.value, scope) && c.value.epoch >= epoch
    ensures forall x :: x in clears && Clears(x, scope) && x.epoch >= epoch ==>
              c.Some? && x.epoch <= c.value.epoch
  {
    if clears == [] then None
    else
      var rest, last := NewestCovering(clears[..|clears| - 1], scope, epoch), clears[|clears| - 1];
      if Clears(last, scope) && last.epoch >= epoch && (rest.None? || rest.value.epoch <= last.epoch)
      then Some(last) else rest
  }

  /** One kill row binding the strategy, with its newest covering clear. */
  datatype BoundKill = BoundKill(event: Event, cleared: Option<Clear>)

  predicate Shown(db: Db, e: Event, id: string) {
    e.kind.Kill? && e.epoch.Some? && Binds(db.strategies, ScopeOf(e), id)
  }

  /** The view's row of one kill. */
  function KillRowOf(db: Db, e: Event): BoundKill
    requires e.epoch.Some?
  {
    BoundKill(e, NewestCovering(db.clears, ScopeOf(e), e.epoch.value))
  }

  /** The view over the first n event rows, newest row first. */
  function KillView(db: Db, id: string, n: nat): seq<BoundKill>
    requires n <= |db.events|
  {
    if n == 0 then []
    else
      var e := db.events[n - 1];
      if Shown(db, e, id) then [KillRowOf(db, e)] + KillView(db, id, n - 1)
      else KillView(db, id, n - 1)
  }

  // ----- The breaker latch and the paused provenance -----

  const DAY := 86400

  /** A breaker row of the UTC day that binds the strategy. */
  predicate BreakerOn(db: Db, e: Event, id: string, day: int) {
    e.kind.Breaker? && e.at / DAY == day && Binds(db.strategies, ScopeOf(e), id)
  }

  /** The newest such row, the later one winning a tie; the latch is that there is one. */
  function NewestBreaker(db: Db, id: string, day: int, n: nat): (b: Option<Event>)
    requires n <= |db.events|
    ensures b.None? <==> forall i :: 0 <= i < n ==> !BreakerOn(db, db.events[i], id, day)
    ensures b.Some? ==> exists i :: 0 <= i < n && b.value == db.events[i] && BreakerOn(db, b.value, id, day)
    ensures forall i :: 0 <= i < n && BreakerOn(db, db.events[i], id, day) ==> db.events[i].at <= b.value.at
  {
    if n == 0 then None
    else
      var rest, e := NewestBreaker(db, id, day, n - 1), db.events[n - 1];
      if BreakerOn(db, e, id, day) && (rest.None? || rest.value.at <= e.at) then Some(e) else rest
  }

  predicate Pauses(t: Transition, id: string) {
    t.strategy == id && t.to.Paused?
  }

  /** Newest by recorded time, then by row. */
  predicate NewestPause(rows: seq<Transition>, id: string, i: int) {
    && 0 <= i < |rows| && Pauses(rows[i], id)
    && (forall j :: 0 <= j < i && Pauses(rows[j], id) ==> rows[j].at <= rows[i].at)
    && (forall j :: i < j < |rows| && Pauses(rows[j], id) ==> rows[j].at < rows[i].at)
  }

  /** The position of the newest paused row. */
  function NewestPauseAt(rows: seq<Transition>, id: string): (i: Option<nat>)
    ensures i.None? <==> forall j :: 0 <= j < |rows| ==> !Pauses(rows[j], id)
    ensures i.Some? ==> NewestPause(rows, id, i.value)
  {
    if rows == [] then None
    else
      var n := |rows| - 1;
      var rest := NewestPauseAt(rows[..n], id);
      if Pauses(rows[n], id) && (rest.None? || rows[rest.value].at <= rows[n].at) then Some(n) else rest
  }

  /** The from state of the newest paused row. */
  function PausedFrom(rows: seq<Transition>, id: string): Option<State> {
    var i := NewestPauseAt(rows, id);
    if i.None? then None else Some(rows[i.value].from)
  }

  datatype StatusRow = StatusRow(state: State, pausedFrom: Option<State>, active: bool,
                                 kills: seq<BoundKill>, breaker: Option<Event>)

  // ----- The atomic steps -----

  datatype Op =
    | Provision(id: string, tenant: string, name: string, max: int, state: State, at: int)
    | AppendKill(event: string, scope: Scope, actor: string, at: int)
    | AppendBreaker(event: string, strategy: string, tenant: string, at: int)
    | AppendClear(clear: string, scope: Scope, actor: string, observed: int, at: int)
    | MarkServed(event: string, at: int)
    | Transit(id: string, from: State, to: State, actor: string, at: int)
    | Lock(id: string, event: string, actor: string, at: int)

  datatype Answer =
    | Epoch(epoch: int)
    | Cleared(epoch: int, superseded: seq<string>)
    | Done
    | Unchanged
    | NotFound
    | NoActiveKill
    | ClearConflict
    | KillActive
    | InvalidInitialState
    | InvalidCap
    | StrategyNameTaken
    | StrategyLimitReached
    | Constraint

  /** The audit tenant of a strategy row, or the tenant itself. */
  function KillRow(db: Db, event: string, scope: Scope, actor: string, at: int): Event
    requires scope.OfStrategy? ==> scope.id in db.strategies
  {
    var epoch := Some(NextEpoch(db.events));
    match scope
    case OfStrategy(s) => Event(event, Kill, Some(s), Some(db.strategies[s].tenant), epoch, actor, at)
    case OfTenant(t) => Event(event, Kill, None, Some(t), epoch, actor, at)
    case OfPlatform => Event(event, Kill, None, None, epoch, actor, at)
  }

  function ClearRow(db: Db, clear: string, scope: Scope, actor: string, epoch: int, at: int): Clear
    requires scope.OfStrategy? ==> scope.id in db.strategies
  {
    match scope
    case OfStrategy(s) => Clear(clear, StrategyTier, Some(s), Some(db.strategies[s].tenant), epoch, actor, at)
    case OfTenant(t) => Clear(clear, TenantTier, None, Some(t), epoch, actor, at)
    case OfPlatform => Clear(clear, PlatformTier, None, None, epoch, actor, at)
  }

  predicate HasEvent(db: Db, event: string) {
    exists i :: 0 <= i < |db.events| && db.events[i].id == event
  }

  predicate HasClear(db: Db, clear: string) {
    exists i :: 0 <= i < |db.clears| && db.clears[i].id == clear
  }

  function Moved(db: Db, t: Transition): Db
    requires t.strategy in db.strategies
  {
    db.(transitions := db.transitions + [t],
        strategies := db.strategies[t.strategy := db.strategies[t.strategy].(state := t.to)])
  }

  function ApplyClear(db: Db, clear: string, scope: Scope, actor: string, observed: int, at: int): (Db, Answer) {
    if scope.OfStrategy? && scope.id !in db.strategies then (db, NotFound)
    else if !ActiveAt(db.events, db.clears, scope) then (db, NoActiveKill)
    else if Coalesce(MaxKilled(db.events, scope)) != observed then (db, ClearConflict)
    else if HasClear(db, clear) then (db, Constraint)
    else
      var covered := Covered(db.events, db.effects, scope, observed);
      (db.(clears := db.clears + [ClearRow(db, clear, scope, actor, observed, at)],
           effects := db.effects + Ids(covered),
           alerts := db.alerts + SupersedeAlerts(covered, clear, at)),
       Cleared(observed, Ids(covered)))
  }

  /** The compare-and-swap transition; the flag asks for the kill re-check. */
  function ApplyTransit(db: Db, t: Transition, liveTarget: bool): (Db, Answer) {
    if t.strategy !in db.strategies then (db, NotFound)
    else if db.strategies[t.strategy].state != t.from then (db, Unchanged)
    else if liveTarget && ActiveKill(db, t.strategy) then (db, KillActive)
    else (Moved(db, t), Done)
  }

  // ----- Provisioning -----

  predicate Space(c: char) {
    var n := c as int;
    9 <= n <= 13 || n in {0x20, 0x85, 0xA0, 0x1680, 0x2028, 0x2029, 0x202F, 0x205F, 0x3000} || 0x2000 <= n <= 0x200A
  }

  /** The text without leading and trailing white space. */
  function TrimSpace(s: string): (r: string)
    ensures r != "" ==> !Space(r[0]) && !Space(r[|r| - 1])
  {
    if s == "" then ""
    else if Space(s[0]) then TrimSpace(s[1..])
    else if Space(s[|s| - 1]) then TrimSpace(s[..|s| - 1])
    else s
  }

  /** The strategies of a tenant. */
  function Siblings(strategies: map<string, Strategy>, tenant: string): set<string> {
    set id | id in strategies && strategies[id].tenant == tenant
  }

  predicate NameTaken(strategies: map<string, Strategy>, tenant: string, name: string) {
    exists id :: id in Siblings(strategies, tenant) && TrimSpace(strategies[id].name) == name
  }

  /** The initial state, the cap, the name, then the quota: a taken name wins at the cap. */
  function ApplyProvision(db: Db, id: string, s: Strategy, max: int, at: int): (Db, Answer) {
    if !(s.state.Draft? || s.state.Paper?) then (db, InvalidInitialState)
    else if max < 1 then (db, InvalidCap)
    else if NameTaken(db.strategies, s.tenant, s.name) then (db, StrategyNameTaken)
    else if |Siblings(db.strategies, s.tenant)| >= max then (db, StrategyLimitReached)
    else if id in db.strategies then (db, Constraint)
    else
      (db.(strategies := db.strategies[id := s],
           transitions := if s.state.Paper? then db.transitions + [Transition(id, Draft, Paper, "bootstrap", at)]
                          else db.transitions), Done)
  }

  /** One committed or refused transaction. */
  function Apply(db: Db, op: Op): (Db, Answer) {
    match op
    case Provision(id, tenant, name, max, state, at) => ApplyProvision(db, id, Strategy(tenant, name, state), max, at)
    case AppendKill(event, scope, actor, at) =>
      if scope.OfStrategy? && scope.id !in db.strategies then (db, NotFound)
      else if HasEvent(db, event) then (db, Constraint)
      else (db.(events := db.events + [KillRow(db, event, scope, actor, at)]), Epoch(NextEpoch(db.events)))
    case AppendBreaker(event, strategy, tenant, at) =>
      if HasEvent(db, event) then (db, Constraint)
      else (db.(events := db.events + [Event(event, Breaker, Some(strategy), Some(tenant), None,
                                             "breaker-monitor", at)]), Done)
    case AppendClear(clear, scope, actor, observed, at) => ApplyClear(db, clear, scope, actor, observed, at)
    case MarkServed(event, at) =>
      if !HasEvent(db, event) then (db, Constraint)
      else if event in db.effects then (db, Unchanged)
      else (db.(effects := db.effects + [event]), Done)
    case Transit(id, from, to, actor, at) => ApplyTransit(db, Transition(id, from, to, actor, at), IsLive(to))
    case Lock(id, event, actor, at) =>
      if id !in db.strategies then (db, NotFound)
      else if !IsLive(db.strategies[id].state) then (db, Unchanged)
      else (Moved(db, Transition(id, db.strategies[id].state, Killed, actor, at)), Done)
  }

  /** The store: each method performs its step of `Apply` on the table fields. */
  class SafetyStore {
    var strategies: map<string, Strategy>
    var events: seq<Event>
    var clears: seq<Clear>
    var effects: seq<string>
    var alerts: seq<Alert>
    var transitions: seq<Transition>

    function Snapshot(): Db
      reads this
    {
      Db(strategies, events, clears, effects, alerts, transitions)
    }

    constructor ()
      ensures Snapshot() == EMPTY
    {
      strategies, events, clears := map[], [], [];
      effects, alerts, transitions := [], [], [];
    }

    method CreateStrategyProvisioned(id: string, s: Strategy, max: int, at: int) returns (r: Answer)
      modifies this
      ensures (Snapshot(), r) == Apply(old(Snapshot()), Provision(id, s.tenant, s.name, max, s.state, at))
    {
      if !(s.state.Draft? || s.state.Paper?) {
        return InvalidInitialState;
      }
      if max < 1 {
        return InvalidCap;
      }
      var count, taken := CountNames(s.tenant, s.name);
      if taken {
        return StrategyNameTaken;
      }
      if count >= max {
        return StrategyLimitReached;
      }
      if id in strategies {
        return Constraint;
      }
      strategies := strategies[id := s];
      if s.state.Paper? {
        transitions := transitions + [Transition(id, Draft, Paper, "bootstrap", at)];
      }
      r := Done;
    }

    /** One pass over the tenant's rows: their number, and whether one carries the name. */
    method CountNames(tenant: string, name: string) returns (count: nat, taken: bool)
      ensures count == |Siblings(strategies, tenant)| && taken == NameTaken(strategies, tenant, name)
    {
      var all := Siblings(strategies, tenant);
      var todo := all;
      count, taken := 0, false;
      while todo != {}
        invariant todo <= all && count + |todo| == |all|
        invariant taken <==> exists id :: id in all - todo && TrimSpace(strategies[id].name) == name
        decreases |todo|
      {
        var id :| id in todo;
        count := count + 1;
        if TrimSpace(strategies[id].name) == name {
          taken := true;
        }
        todo := todo - {id};
      }
      assert all - todo == all;
    }

    method AppendStrategyKill(event: string, id: string, actor: string, at: int) returns (r: Answer)
      modifies this
      ensures (Snapshot(), r) == Apply(old(Snapshot()), AppendKill(event, OfStrategy(id), actor, at))
    {
      if id !in strategies {
        return NotFound;
      }
      var tenant := strategies[id].tenant;
      var epoch := NextEpoch(events);
      if HasEvent(Snapshot(), event) {
        return Constraint;
      }
      events := events + [Event(event, Kill, Some(id), Some(tenant), Some(epoch), actor, at)];
      r := Epoch(epoch);
    }

    method AppendTenantKill(event: string, tenant: string, actor: string, at: int) returns (r: Answer)
      modifies this
      ensures (Snapshot(), r) == Apply(old(Snapshot()), AppendKill(event, OfTenant(tenant), actor, at))
    {
      var epoch := NextEpoch(events);
      if HasEvent(Snapshot(), event) {
        return Constraint;
      }
      events := events + [Event(event, Kill, None, Some(tenant), Some(epoch), actor, at)];
      r := Epoch(epoch);
    }

    method AppendPlatformKill(event: string, actor: string, at: int) returns (r: Answer)
      modifies this
      ensures (Snapshot(), r) == Apply(old(Snapshot()), AppendKill(event, OfPlatform, actor, at))
    {
      var epoch := NextEpoch(events);
      if HasEvent(Snapshot(), event) {
        return Constraint;
      }
      events := events + [Event(event, Kill, None, None, Some(epoch), actor, at)];
      r := Epoch(epoch);
    }

    /** The monitor's breaker row: not a kill, no epoch. */
    method AppendBreakerEvent(event: string, strategy: string, tenant: string, at: int) returns (r: Answer)
      modifies this
      ensures (Snapshot(), r) == Apply(old(Snapshot()), AppendBreaker(event, strategy, tenant, at))
    {
      if HasEvent(Snapshot(), event) {
        return Constraint;
      }
      events := events + [Event(event, Breaker, Some(strategy), Some(tenant), None, "breaker-monitor", at)];
      r := Done;
    }

    method AppendSafetyEffectDone(event: string, at: int) returns (r: Answer)
      modifies this
      ensures (Snapshot(), r) == Apply(old(Snapshot()), MarkServed(event, at))
    {
      if !HasEvent(Snapshot(), event) {
        return Constraint;
      }
      if event in effects {
        return Unchanged;
      }
      effects := effects + [event];
      r := Done;
    }

    method AppendKillClear(clear: string, scope: Scope, actor: string, observed: int, at: int) returns (r: Answer)
      modifies this
      ensures (Snapshot(), r) == Apply(old(Snapshot()), AppendClear(clear, scope, actor, observed, at))
    {
      if scope.OfStrategy? && scope.id !in strategies {
        return NotFound;
      }
      if !ActiveAt(events, clears, scope) {
        return NoActiveKill;
      }
      if Coalesce(MaxKilled(events, scope)) != observed {
        return ClearConflict;
      }
      if HasClear(Snapshot(), clear) {
        return Constraint;
      }
      clears := clears + [ClearRow(Snapshot(), clear, scope, actor, observed, at)];
      var ids := SupersedeUnserved(clear, scope, observed, at);
      r := Cleared(observed, ids);
    }

    /** The kill rows a clear covers, read in row order. */
    method ListCovered(scope: Scope, upTo: int) returns (covered: seq<Event>)
      ensures covered == Covered(events, effects, scope, upTo)
    {
      covered := [];
      for i := 0 to |events|
        invariant covered == Covered(events[..i], effects, scope, upTo)
      {
        assert events[..i + 1][..i] == events[..i];
        var e := events[i];
        if KillOf(e, scope) && e.epoch.Some? && e.epoch.value <= upTo && e.id !in effects {
          covered := covered + [e];
        }
      }
      assert events[..|events|] == events;
    }

    /** Marks and alerts every covered kill row that has no served marker. */
    method SupersedeUnserved(clear: string, scope: Scope, upTo: int, at: int) returns (ids: seq<string>)
      modifies `effects, `alerts
      ensures ids == Ids(Covered(old(events), old(effects), scope, upTo))
      ensures effects == old(effects) + ids
      ensures alerts == old(alerts) + SupersedeAlerts(Covered(old(events), old(effects), scope, upTo), clear, at)
    {
      var covered := ListCovered(scope, upTo);
      ids := [];
      ghost var more := SupersedeAlerts(covered, clear, at);
      for i := 0 to |covered|
        invariant |ids| == i && forall k :: 0 <= k < i ==> ids[k] == covered[k].id
        invariant effects == old(effects) + ids
        invariant alerts == old(alerts) + more[..i]
      {
        var e := covered[i];
        effects := effects + [e.id];
        alerts := alerts + [Alert("kill_effects_superseded", e.strategy, e.id, clear, at)];
        ids := ids + [e.id];
      }
    }

    /** One read transaction: state and provenance, the acting predicate, the bound kills and the day's breaker. */
    method SafetyStatus(id: string, day: int) returns (row: Option<StatusRow>)
      ensures row.None? <==> id !in strategies
      ensures row.Some? ==>
        && row.value.state == strategies[id].state && row.value.active == ActiveKill(Snapshot(), id)
        && row.value.kills == KillView(Snapshot(), id, |events|)
        && row.value.breaker == NewestBreaker(Snapshot(), id, day, |events|)
        && row.value.pausedFrom == (if strategies[id].state.Paused? then PausedFrom(transitions, id) else None)
    {
      if id !in strategies {
        return None;
      }
      var db, kills, breaker := Snapshot(), [], None;
      for i := 0 to |events|
        invariant kills == KillView(db, id, i) && breaker == NewestBreaker(db, id, day, i)
      {
        var e := events[i];
        if Shown(db, e, id) {
          kills := [BoundKill(e, NewestCovering(clears, ScopeOf(e), e.epoch.value))] + kills;
        }
        if BreakerOn(db, e, id, day) && (breaker.None? || breaker.value.at <= e.at) {
          breaker := Some(e);
        }
      }
      var state := strategies[id].state;
      row := Some(StatusRow(state, if state.Paused? then PausedFrom(transitions, id) else None,
                            ActiveKill(db, id), kills, breaker));
    }

    /** The compare-and-swap transition; a live target re-checks the kill predicate in the transaction. */
    method AppendLifecycleTransitionCAS(t: Transition, liveTarget: bool) returns (r: Answer)
      modifies this
      ensures (Snapshot(), r) == ApplyTransit(old(Snapshot()), t, liveTarget)
    {
      if t.strategy !in strategies {
        return NotFound;
      }
      if strategies[t.strategy].state != t.from {
        return Unchanged;
      }
      if liveTarget {
        if ActiveKill(Snapshot(), t.strategy) {
          return KillActive;
        }
      }
      transitions := transitions + [t];
      strategies := strategies[t.strategy := strategies[t.strategy].(state := t.to)];
      r := Done;
    }

    method AppendKillLifecycleLock(id: string, event: string, actor: string, at: int) returns (r: Answer)
      modifies this
      ensures (Snapshot(), r) == Apply(old(Snapshot()), Lock(id, event, actor, at))
    {
      if id !in strategies {
        return NotFound;
      }
      var state := strategies[id].state;
      if !IsLive(state) {
        return Unchanged;
      }
      transitions := transitions + [Transition(id, state, Killed, actor, at)];
      strategies := strategies[id := strategies[id].(state := Killed)];
      r := Done;
    }
  }
}
