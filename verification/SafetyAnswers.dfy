/**
 What each transaction of the safety store answers and appends in every run, over the
 history of committed kills, clears and transitions: exactly when it commits, and
 exactly when it is refused.
 */
module SafetyAnswers {
  import opened Wrappers
  import opened SafetyTables
  import opened SafetyRuns

  // ----- Epochs count kills -----

  function KillCount(history: seq<Commit>): nat {
    if history == [] then 0
    else KillCount(history[..|history| - 1]) + if history[|history| - 1].KillAt? then 1 else 0
  }

  /** The number of the scope's last kill, counted over all scopes; 0 when it has none. */
  function LastKillNo(history: seq<Commit>, scope: Scope): nat {
    if history == [] then 0
    else
      var last := history[|history| - 1];
      if last.KillAt? && last.scope == scope then KillCount(history)
      else LastKillNo(history[..|history| - 1], scope)
  }

  lemma CountPush(history: seq<Commit>, x: Commit)
    ensures KillCount(history + [x]) == KillCount(history) + if x.KillAt? then 1 else 0
  {
    assert (history + [x])[..|history|] == history;
  }

  lemma LastKillNoPush(history: seq<Commit>, x: Commit, scope: Scope)
    ensures LastKillNo(history + [x], scope)
         == if x.KillAt? && x.scope == scope then KillCount(history) + 1 else LastKillNo(history, scope)
  {
    assert (history + [x])[..|history|] == history;
    CountPush(history, x);
  }

  lemma MaxEpochPush(events: seq<Event>, e: Event)
    ensures MaxEpoch(events + [e]) == if e.epoch.Some? then MaxOpt(MaxEpoch(events), e.epoch.value) else MaxEpoch(events)
  {
    assert (events + [e])[..|events|] == events;
  }

  ghost predicate NumbersInv(r: Run) {
    Coalesce(MaxEpoch(r.db.events)) == KillCount(r.history) && forall scope :: NumberedIn(r.db.events, r.history, scope)
  }

  lemma NumbersStep(r: Run, op: Op)
    requires WatermarkInv(r) && NumbersInv(r)
    ensures NumbersInv(Next(r, op))
  {
    var r', shape := Next(r, op), ShapeOf(r.db, op);
    NextTouches(r, op);
    NextEpochIsAbove(r.db.events, OfPlatform);
    if shape.Kills? {
      MaxEpochPush(r.db.events, shape.event);
    } else if shape.Breaks? {
      MaxEpochPush(r.db.events, shape.event);
    }
    if r'.history != r.history {
      CountPush(r.history, r'.history[|r.history|]);
    }
    forall scope
      ensures NumberedIn(r'.db.events, r'.history, scope)
    {
      assert NumberedIn(r.db.events, r.history, scope);
      NumberedStep(r, r', shape, scope);
    }
  }

  ghost predicate NumberedIn(events: seq<Event>, history: seq<Commit>, scope: Scope) {
    Coalesce(MaxKilled(events, scope)) == LastKillNo(history, scope)
  }

  lemma KillNumbers(events: seq<Event>, history: seq<Commit>, scope: Scope, e: Event)
    requires EpochsInv(events) && Coalesce(MaxEpoch(events)) == KillCount(history) && NumberedIn(events, history, scope)
    requires e.kind.Kill? && e.epoch == Some(NextEpoch(events))
    ensures NumberedIn(events + [e], history + [KillAt(ScopeOf(e), e.id)], scope)
  {
    NextEpochIsAbove(events, scope);
    MaxKilledPush(events, e, scope);
    LastKillNoPush(history, KillAt(ScopeOf(e), e.id), scope);
  }

  lemma NumberedStep(r: Run, r': Run, shape: Shape, scope: Scope)
    requires EpochsInv(r.db.events) && Coalesce(MaxEpoch(r.db.events)) == KillCount(r.history)
    requires NumberedIn(r.db.events, r.history, scope) && Touched(r, r', shape)
    ensures NumberedIn(r'.db.events, r'.history, scope)
  {
    match shape
    case Same =>
    case Kills(e) => KillNumbers(r.db.events, r.history, scope, e);
    case Breaks(e) => MaxKilledPush(r.db.events, e, scope);
    case Unkills(c, at) => LastKillNoPush(r.history, ClearAt(at), scope);
    case Moves(id) => LastKillNoPush(r.history, MoveOf(id), scope);
  }

  /** In every run the n-th kill over all scopes has epoch n. */
  lemma {:induction false} EpochsCountKills(ops: seq<Op>)
    ensures NumbersInv(RunOf(ops))
  {
    if ops != [] {
      var before := ops[..|ops| - 1];
      EpochsCountKills(before);
      WatermarkHolds(before);
      NumbersStep(RunOf(before), ops[|ops| - 1]);
    }
  }

  // ----- Killed strategies are known -----

  ghost predicate KilledKnown(r: Run) {
    forall c :: c in r.history && c.KillAt? && c.scope.OfStrategy? ==> c.scope.id in r.db.strategies
  }

  lemma {:induction false} KilledAreKnown(ops: seq<Op>)
    ensures KilledKnown(RunOf(ops))
  {
    if ops != [] {
      var r, op := RunOf(ops[..|ops| - 1]), ops[|ops| - 1];
      KilledAreKnown(ops[..|ops| - 1]);
      assert r.db.strategies.Keys <= Next(r, op).db.strategies.Keys;
    }
  }

  lemma {:induction false} LastKillIsInHistory(history: seq<Commit>, scope: Scope)
    requires LastIsKill(history, scope)
    ensures exists c :: c in history && c.KillAt? && c.scope == scope
  {
    var last := history[|history| - 1];
    if last.KillAt? && last.scope == scope {
      assert last in history;
    } else {
      LastKillIsInHistory(history[..|history| - 1], scope);
      var c :| c in history[..|history| - 1] && c.KillAt? && c.scope == scope;
      assert c in history;
    }
  }

  // ----- Clears -----

  lemma ActiveIsLastKill(ops: seq<Op>, scope: Scope)
    ensures var r := RunOf(ops); ActiveAt(r.db.events, r.db.clears, scope) <==> LastIsKill(r.history, scope)
  {
    WatermarkHolds(ops);
    var r := RunOf(ops);
    assert ScopeInv(r.db.events, r.db.clears, r.history, scope);
    ActiveIsAboveWatermark(r.db.events, r.db.clears, scope);
  }

  /**
   In every run a clear answers not found exactly for an unknown strategy, then no active
   kill exactly when the scope's last kill or clear is not a kill, then a conflict exactly
   when the epoch observed is not the number of the scope's last kill, then a constraint
   exactly for a used id; and it commits exactly when none of these holds.
   */
  lemma ClearAnswersExactly(ops: seq<Op>, clear: string, scope: Scope, actor: string, observed: int, at: int)
    ensures var r := RunOf(ops);
      var answer := Apply(r.db, AppendClear(clear, scope, actor, observed, at)).1;
      var unknown := scope.OfStrategy? && scope.id !in r.db.strategies;
      var killed, current := LastIsKill(r.history, scope), LastKillNo(r.history, scope) == observed;
      var used := exists c :: c in r.db.clears && c.id == clear;
      && (answer.NotFound? <==> unknown)
      && (answer.NoActiveKill? <==> !unknown && !killed)
      && (answer.ClearConflict? <==> !unknown && killed && !current)
      && (answer.Constraint? <==> !unknown && killed && current && used)
      && (answer.Cleared? <==> !unknown && killed && current && !used)
      && (answer.Cleared? ==> answer.epoch == observed)
  {
    var r := RunOf(ops);
    ActiveIsLastKill(ops, scope);
    EpochsCountKills(ops);
    assert NumberedIn(r.db.events, r.history, scope);
    ClearAnswer(r.db, clear, scope, actor, observed, at, LastIsKill(r.history, scope), LastKillNo(r.history, scope));
  }

  lemma ClearAnswer(db: Db, clear: string, scope: Scope, actor: string, observed: int, at: int, killed: bool, no: int)
    requires killed == ActiveAt(db.events, db.clears, scope) && no == Coalesce(MaxKilled(db.events, scope))
    ensures var answer := Apply(db, AppendClear(clear, scope, actor, observed, at)).1;
      var unknown := scope.OfStrategy? && scope.id !in db.strategies;
      var used := exists c :: c in db.clears && c.id == clear;
      && (answer.NotFound? <==> unknown)
      && (answer.NoActiveKill? <==> !unknown && !killed)
      && (answer.ClearConflict? <==> !unknown && killed && no != observed)
      && (answer.Constraint? <==> !unknown && killed && no == observed && used)
      && (answer.Cleared? <==> !unknown && killed && no == observed && !used)
      && (answer.Cleared? ==> answer.epoch == observed)
  {
    if c :| c in db.clears && c.id == clear {
      var i :| 0 <= i < |db.clears| && db.clears[i] == c;
    }
  }

  /** The last kill of any scope can always be cleared, by whoever saw it, under a fresh id. */
  lemma FreshClearCommits(ops: seq<Op>, clear: string, scope: Scope, actor: string, at: int)
    requires var r := RunOf(ops); LastIsKill(r.history, scope) && forall c :: c in r.db.clears ==> c.id != clear
    ensures var r := RunOf(ops); var op := AppendClear(clear, scope, actor, LastKillNo(r.history, scope), at);
      && Apply(r.db, op).1.Cleared? && !LastIsKill(Next(r, op).history, scope)
      && forall other :: other != scope ==> LastIsKill(Next(r, op).history, other) == LastIsKill(r.history, other)
  {
    var r := RunOf(ops);
    LastKillIsInHistory(r.history, scope);
    KilledAreKnown(ops);
    ClearAnswersExactly(ops, clear, scope, actor, LastKillNo(r.history, scope), at);
    forall s
      ensures LastIsKill(r.history + [ClearAt(scope)], s) == if s == scope then false else LastIsKill(r.history, s)
    {
      LastIsKillPush(r.history, ClearAt(scope), s);
    }
  }

  /** The row a committed clear appends, column by column. */
  lemma ClearAppendsItsRow(db: Db, clear: string, scope: Scope, actor: string, observed: int, at: int)
    ensures var (db', answer) := Apply(db, AppendClear(clear, scope, actor, observed, at));
      if answer.Cleared? then
        && |db'.clears| == |db.clears| + 1 && db'.clears[..|db.clears|] == db.clears
        && var c := db'.clears[|db.clears|];
           && c.id == clear && c.epoch == observed && c.actor == actor && c.at == at
           && (c.tier.StrategyTier? <==> scope.OfStrategy?) && (c.tier.TenantTier? <==> scope.OfTenant?)
           && c.strategy == (if scope.OfStrategy? then Some(scope.id) else None)
           && c.tenant == (if scope.OfPlatform? then None
                           else if scope.OfTenant? then Some(scope.id) else Some(db.strategies[scope.id].tenant))
      else db' == db
  {
  }

  /** Each superseded kill gets one marker and one alert, in the order of the kill rows. */
  lemma ClearAlertsItsKills(db: Db, clear: string, scope: Scope, actor: string, observed: int, at: int)
    requires Apply(db, AppendClear(clear, scope, actor, observed, at)).1.Cleared?
    ensures var (db', answer) := Apply(db, AppendClear(clear, scope, actor, observed, at));
      var n, ids := |db.alerts|, answer.superseded;
      && db'.effects == db.effects + ids && |db'.alerts| == n + |ids| && db'.alerts[..n] == db.alerts
      && db'.strategies == db.strategies && db'.events == db.events && db'.transitions == db.transitions
      && exists rows :: RowsInOrder(db.events, rows) && Alerted(db.events, rows, ids, db'.alerts[n..], clear, at)
  {
    var covered := Covered(db.events, db.effects, scope, observed);
    var rows := CoveredRows(db.events, db.effects, scope, observed);
    var db' := Apply(db, AppendClear(clear, scope, actor, observed, at)).0;
    var alerts := SupersedeAlerts(covered, clear, at);
    assert db'.alerts == db.alerts + alerts && db'.alerts[|db.alerts|..] == alerts;
    CoveredAreAlerted(db.events, rows, covered, clear, at);
  }

  /** The k-th alert is for the kill in the k-th of these rows. */
  ghost predicate Alerted(events: seq<Event>, rows: seq<int>, ids: seq<string>, alerts: seq<Alert>,
                          clear: string, at: int)
    requires RowsInOrder(events, rows)
  {
    && |rows| == |ids| == |alerts|
    && forall k :: 0 <= k < |ids| ==>
         && events[rows[k]].id == ids[k]
         && alerts[k] == Alert("kill_effects_superseded", events[rows[k]].strategy, ids[k], clear, at)
  }

  lemma CoveredAreAlerted(events: seq<Event>, rows: seq<int>, covered: seq<Event>, clear: string, at: int)
    requires RowsInOrder(events, rows) && |rows| == |covered|
    requires forall k :: 0 <= k < |rows| ==> events[rows[k]] == covered[k]
    ensures Alerted(events, rows, Ids(covered), SupersedeAlerts(covered, clear, at), clear, at)
  {
  }

  ghost predicate RowsInOrder(events: seq<Event>, rows: seq<int>) {
    && (forall k :: 0 <= k < |rows| ==> 0 <= rows[k] < |events|)
    && forall j, k :: 0 <= j < k < |rows| ==> rows[j] < rows[k]
  }

  lemma {:induction false} CoveredRows(events: seq<Event>, effects: seq<string>, scope: Scope, upTo: int)
      returns (rows: seq<int>)
    ensures RowsInOrder(events, rows)
    ensures var covered := Covered(events, effects, scope, upTo);
      |rows| == |covered| && forall k :: 0 <= k < |rows| ==> events[rows[k]] == covered[k]
  {
    rows := [];
    if events != [] {
      var n := |events| - 1;
      rows := CoveredRows(events[..n], effects, scope, upTo);
      if |Covered(events, effects, scope, upTo)| > |rows| {
        rows := rows + [n];
      }
    }
  }

  // ----- Kills, breakers and markers -----

  ghost predicate EventUsed(db: Db, event: string) {
    exists e :: e in db.events && e.id == event
  }

  lemma UsedIsStored(db: Db, event: string)
    ensures HasEvent(db, event) <==> EventUsed(db, event)
  {
    if HasEvent(db, event) {
      var i :| 0 <= i < |db.events| && db.events[i].id == event;
      assert db.events[i] in db.events;
    }
    if e :| e in db.events && e.id == event {
      var i :| 0 <= i < |db.events| && db.events[i] == e;
    }
  }

  /**
   In every run a kill of a known scope under a fresh id commits, as one row whose epoch
   is the number of kills so far and one more.
   */
  lemma KillAnswersExactly(ops: seq<Op>, event: string, scope: Scope, actor: string, at: int)
    ensures var r := RunOf(ops);
      var (db', answer) := Apply(r.db, AppendKill(event, scope, actor, at));
      var unknown := scope.OfStrategy? && scope.id !in r.db.strategies;
      && (answer.NotFound? <==> unknown)
      && (answer.Constraint? <==> !unknown && EventUsed(r.db, event))
      && (if unknown || EventUsed(r.db, event) then db' == r.db
          else
            && answer == Epoch(KillCount(r.history) + 1)
            && db' == r.db.(events := r.db.events + [Event(event, Kill,
                 if scope.OfStrategy? then Some(scope.id) else None,
                 if scope.OfPlatform? then None
                 else if scope.OfTenant? then Some(scope.id) else Some(r.db.strategies[scope.id].tenant),
                 Some(KillCount(r.history) + 1), actor, at)]))
  {
    EpochsCountKills(ops);
    UsedIsStored(RunOf(ops).db, event);
  }

  /** A breaker row has no epoch; a marker needs its event and is kept once. */
  lemma BreakerAndMarkerAnswers(db: Db, event: string, strategy: string, tenant: string, at: int)
    ensures var (db', answer) := Apply(db, AppendBreaker(event, strategy, tenant, at));
      if EventUsed(db, event) then db' == db && answer.Constraint?
      else answer.Done?
           && db' == db.(events := db.events
                                   + [Event(event, Breaker, Some(strategy), Some(tenant), None, "breaker-monitor", at)])
    ensures var (db', answer) := Apply(db, MarkServed(event, at));
      if !EventUsed(db, event) then db' == db && answer.Constraint?
      else if event in db.effects then db' == db && answer.Unchanged?
      else answer.Done? && db' == db.(effects := db.effects + [event])
  {
    UsedIsStored(db, event);
  }

  // ----- Transitions -----

  /** A kill stands for the strategy: its own, its tenant's, or the platform's. */
  ghost predicate Killed(r: Run, id: string) {
    || LastIsKill(r.history, OfStrategy(id))
    || (id in r.db.strategies && LastIsKill(r.history, OfTenant(r.db.strategies[id].tenant)))
    || LastIsKill(r.history, OfPlatform)
  }

  lemma KilledIsActive(ops: seq<Op>, id: string)
    ensures var r := RunOf(ops); ActiveKill(r.db, id) <==> Killed(r, id)
  {
    var r := RunOf(ops);
    ActiveIsLastKill(ops, OfStrategy(id));
    ActiveIsLastKill(ops, OfPlatform);
    if id in r.db.strategies {
      ActiveIsLastKill(ops, OfTenant(r.db.strategies[id].tenant));
    }
  }

  /** The strategy's state moves and one audit row says so; nothing else changes. */
  ghost predicate MovesTo(db: Db, db': Db, id: string, from: State, to: State, actor: string, at: int) {
    && id in db.strategies && db' == db.(
         strategies := db.strategies[id := Strategy(db.strategies[id].tenant, db.strategies[id].name, to)],
         transitions := db.transitions + [Transition(id, from, to, actor, at)])
  }

  /**
   In every run a transition is refused for an unknown strategy, then for a state that is
   not the one expected, then into a live state exactly while a kill stands; otherwise it
   moves the state.
   */
  lemma TransitAnswersExactly(ops: seq<Op>, id: string, from: State, to: State, actor: string, at: int)
    ensures var r := RunOf(ops);
      var (db', answer) := Apply(r.db, Transit(id, from, to, actor, at));
      if id !in r.db.strategies then db' == r.db && answer.NotFound?
      else if r.db.strategies[id].state != from then db' == r.db && answer.Unchanged?
      else if (to == LiveL1 || to == LiveL2 || to == LiveL3) && Killed(r, id) then db' == r.db && answer.KillActive?
      else answer.Done? && MovesTo(r.db, db', id, from, to, actor, at)
  {
    KilledIsActive(ops, id);
  }

  /** The kill lock takes a live strategy to killed and leaves every other alone. */
  lemma LockAnswersExactly(db: Db, id: string, event: string, actor: string, at: int)
    ensures var (db', answer) := Apply(db, Lock(id, event, actor, at));
      if id !in db.strategies then db' == db && answer.NotFound?
      else if db.strategies[id].state in {LiveL1, LiveL2, LiveL3}
      then answer.Done? && MovesTo(db, db', id, db.strategies[id].state, State.Killed, actor, at)
      else db' == db && answer.Unchanged?
  {
  }

  // ----- Provisioning -----

  predicate Blank(s: string) {
    forall c :: c in s ==> Space(c)
  }

  /** Tab to carriage return, space, next line, no-break space, and the separators of Unicode. */
  lemma SpaceIsWhite(c: char)
    ensures Space(c) <==> c in "\t\n\U{0B}\U{0C}\r \U{85}\U{A0}\U{1680}\U{2000}\U{2001}\U{2002}\U{2003}\U{2004}"
                             + "\U{2005}\U{2006}\U{2007}\U{2008}\U{2009}\U{200A}\U{2028}\U{2029}\U{202F}\U{205F}\U{3000}"
  {
  }

  /** The text is its middle with white space around it. */
  predicate Around(s: string, a: string, middle: string, b: string) {
    s == a + middle + b && Blank(a) && Blank(b)
  }

  lemma MoreAround(c: char, s: string, a: string, middle: string, b: string)
    requires Space(c) && Around(s, a, middle, b)
    ensures Around([c] + s, [c] + a, middle, b) && Around(s + [c], a, middle, b + [c])
  {
    assert [c] + (a + middle + b) == ([c] + a) + middle + b;
    assert (a + middle + b) + [c] == a + middle + (b + [c]);
  }

  /** Only white space goes, before and after. */
  lemma {:induction false} TrimKeepsTheMiddle(s: string) returns (a: string, b: string)
    ensures Around(s, a, TrimSpace(s), b)
  {
    a, b := "", "";
    if s != "" {
      var n := |s| - 1;
      if Space(s[0]) {
        a, b := TrimKeepsTheMiddle(s[1..]);
        MoreAround(s[0], s[1..], a, TrimSpace(s[1..]), b);
        assert s == [s[0]] + s[1..];
        a := [s[0]] + a;
      } else if Space(s[n]) {
        a, b := TrimKeepsTheMiddle(s[..n]);
        MoreAround(s[n], s[..n], a, TrimSpace(s[..n]), b);
        assert s == s[..n] + [s[n]];
        b := b + [s[n]];
      }
    }
  }

  /** A strategy of the tenant carries the name, up to white space around it. */
  ghost predicate Carries(db: Db, tenant: string, name: string, id: string) {
    id in db.strategies && db.strategies[id].tenant == tenant && TrimSpace(db.strategies[id].name) == name
  }

  /**
   Provisioning is refused for a state that is neither draft nor paper, a cap below one,
   a name the tenant has, a tenant at its cap, and a used id, in this order; otherwise the
   strategy is added, and one that starts in paper has its bootstrap row.
   */
  lemma ProvisionAnswersExactly(db: Db, id: string, tenant: string, name: string, max: int, state: State, at: int)
    ensures var (db', answer) := Apply(db, Provision(id, tenant, name, max, state, at));
      var taken := exists other :: Carries(db, tenant, name, other);
      var count := |set other | other in db.strategies && db.strategies[other].tenant == tenant|;
      && (answer.InvalidInitialState? <==> state != Draft && state != Paper)
      && (answer.InvalidCap? <==> (state == Draft || state == Paper) && max <= 0)
      && (answer.StrategyNameTaken? <==> (state == Draft || state == Paper) && max > 0 && taken)
      && (answer.StrategyLimitReached? <==> (state == Draft || state == Paper) && max > 0 && !taken && count >= max)
      && (answer.Constraint? <==>
            (state == Draft || state == Paper) && max > 0 && !taken && count < max && id in db.strategies)
      && (answer.Done? <==>
            (state == Draft || state == Paper) && max > 0 && !taken && count < max && id !in db.strategies)
      && (if answer.Done? then db' == db.(strategies := db.strategies[id := Strategy(tenant, name, state)],
            transitions := db.transitions
                           + if state == Paper then [Transition(id, Draft, Paper, "bootstrap", at)] else [])
          else db' == db)
  {
    assert Siblings(db.strategies, tenant) == set other | other in db.strategies && db.strategies[other].tenant == tenant;
    assert db.transitions + [] == db.transitions;
    if NameTaken(db.strategies, tenant, name) {
      var other :| other in Siblings(db.strategies, tenant) && TrimSpace(db.strategies[other].name) == name;
      assert Carries(db, tenant, name, other);
    }
    if other :| Carries(db, tenant, name, other) {
      assert other in Siblings(db.strategies, tenant);
    }
  }

  // ----- The day's breaker -----

  /** Breaker rows name their strategy. */
  ghost predicate BreakersNamed(events: seq<Event>) {
    forall e :: e in events && e.kind.Breaker? ==> e.strategy.Some?
  }

  lemma {:induction false} BreakersAreNamed(ops: seq<Op>)
    ensures BreakersNamed(RunOf(ops).db.events)
  {
    if ops != [] {
      BreakersAreNamed(ops[..|ops| - 1]);
      NextTouches(RunOf(ops[..|ops| - 1]), ops[|ops| - 1]);
    }
  }

  /** In every run the breaker a status reports is a newest one of the strategy on the UTC day; none if there is none. */
  lemma BreakerIsOfTheDay(ops: seq<Op>, id: string, day: int)
    ensures var db := RunOf(ops).db; var b := NewestBreaker(db, id, day, |db.events|);
      && (b.Some? <==> exists e :: e in db.events && e.kind.Breaker? && e.strategy == Some(id) && e.at / 86400 == day)
      && (b.Some? ==> b.value in db.events && b.value.kind.Breaker? && b.value.strategy == Some(id)
                      && b.value.at / 86400 == day)
      && forall e :: e in db.events && e.kind.Breaker? && e.strategy == Some(id) && e.at / 86400 == day ==>
           b.Some? && e.at <= b.value.at
  {
    var db := RunOf(ops).db;
    BreakersAreNamed(ops);
    forall i | 0 <= i < |db.events|
      ensures BreakerOn(db, db.events[i], id, day)
              <==> db.events[i].kind.Breaker? && db.events[i].strategy == Some(id) && db.events[i].at / 86400 == day
    {
      assert db.events[i] in db.events;
    }
  }
}
