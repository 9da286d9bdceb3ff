/**
 Runs of the safety store. `history` is the serial order of the committed kills,
 clears and transitions; the tables only keep epochs and watermarks.
 */
module SafetyRuns {
  import opened Wrappers
  import opened SafetyTables

  datatype Commit = KillAt(scope: Scope, event: string) | ClearAt(scope: Scope) | MoveOf(id: string)

  datatype Run = Run(db: Db, history: seq<Commit>)

  /** What a transaction adds to the history; a refused one adds nothing. */
  function Committed(op: Op, answer: Answer): seq<Commit> {
    match op
    case AppendKill(event, scope, _, _) => if answer.Epoch? then [KillAt(scope, event)] else []
    case AppendClear(_, scope, _, _, _) => if answer.Cleared? then [ClearAt(scope)] else []
    case Provision(id, _, _, _, state, _) => if answer.Done? && state.Paper? then [MoveOf(id)] else []
    case Transit(id, _, _, _, _) => if answer.Done? then [MoveOf(id)] else []
    case Lock(id, _, _, _) => if answer.Done? then [MoveOf(id)] else []
    case AppendBreaker(_, _, _, _) => []
    case MarkServed(_, _) => []
  }

  function Next(r: Run, op: Op): Run {
    var (db, answer) := Apply(r.db, op);
    Run(db, r.history + Committed(op, answer))
  }

  function RunOf(ops: seq<Op>): Run {
    if ops == [] then Run(EMPTY, [])
    else Next(RunOf(ops[..|ops| - 1]), ops[|ops| - 1])
  }

  /** The last kill or clear recorded for a scope is a kill. */
  predicate LastIsKill(history: seq<Commit>, scope: Scope) {
    if history == [] then false
    else
      var last := history[|history| - 1];
      if last.KillAt? && last.scope == scope then true
      else if last == ClearAt(scope) then false
      else LastIsKill(history[..|history| - 1], scope)
  }

  // ----- The watermark stands in for the history -----

  ghost predicate ScopeInv(events: seq<Event>, clears: seq<Clear>, history: seq<Commit>, scope: Scope) {
    var killed, cleared := Coalesce(MaxKilled(events, scope)), Watermark(clears, scope);
    && 0 <= cleared <= killed
    && (LastIsKill(history, scope) <==> killed > cleared)
  }

  ghost predicate EpochsInv(events: seq<Event>) {
    forall i :: 0 <= i < |events| ==>
      if events[i].kind.Kill? then events[i].epoch.Some? && events[i].epoch.value >= 1
      else events[i].epoch.None?
  }

  ghost predicate WatermarkInv(r: Run) {
    EpochsInv(r.db.events) && forall scope :: ScopeInv(r.db.events, r.db.clears, r.history, scope)
  }

  lemma ActiveIsAboveWatermark(events: seq<Event>, clears: seq<Clear>, scope: Scope)
    requires Watermark(clears, scope) >= 0
    ensures ActiveAt(events, clears, scope) <==> Coalesce(MaxKilled(events, scope)) > Watermark(clears, scope)
  {
    var m := MaxKilled(events, scope);
    if m.Some? && m.value > Watermark(clears, scope) {
      var i :| 0 <= i < |events| && KillOf(events[i], scope) && events[i].epoch == m;
      assert events[i].epoch.value > Watermark(clears, scope);
    }
  }

  lemma NextEpochIsAbove(events: seq<Event>, scope: Scope)
    requires EpochsInv(events)
    ensures NextEpoch(events) > Coalesce(MaxKilled(events, scope)) >= 0
    ensures NextEpoch(events) >= 1
  {
    var m, k := MaxEpoch(events), MaxKilled(events, scope);
    if k.Some? {
      var i :| 0 <= i < |events| && KillOf(events[i], scope) && events[i].epoch == k;
      assert events[i].epoch.Some?;
    }
    if m.Some? {
      var i :| 0 <= i < |events| && events[i].epoch == m;
      assert events[i].kind.Kill?;
    }
  }

  lemma MaxKilledPush(events: seq<Event>, e: Event, scope: Scope)
    ensures MaxKilled(events + [e], scope)
         == if KillOf(e, scope) && e.epoch.Some? then MaxOpt(MaxKilled(events, scope), e.epoch.value)
            else MaxKilled(events, scope)
  {
    assert (events + [e])[..|events|] == events;
  }

  lemma MaxClearedPush(clears: seq<Clear>, c: Clear, scope: Scope)
    ensures MaxCleared(clears + [c], scope)
         == if Clears(c, scope) then MaxOpt(MaxCleared(clears, scope), c.epoch) else MaxCleared(clears, scope)
  {
    assert (clears + [c])[..|clears|] == clears;
  }

  lemma LastIsKillPush(history: seq<Commit>, x: Commit, scope: Scope)
    ensures LastIsKill(history + [x], scope)
         == if x.KillAt? && x.scope == scope then true
            else if x == ClearAt(scope) then false else LastIsKill(history, scope)
  {
    assert (history + [x])[..|history|] == history;
  }

  lemma KillKeepsScope(events: seq<Event>, clears: seq<Clear>, history: seq<Commit>, scope: Scope, e: Event)
    requires EpochsInv(events) && ScopeInv(events, clears, history, scope)
    requires e.kind.Kill? && e.epoch == Some(NextEpoch(events))
    ensures ScopeInv(events + [e], clears, history + [KillAt(ScopeOf(e), e.id)], scope)
  {
    NextEpochIsAbove(events, scope);
    MaxKilledPush(events, e, scope);
    LastIsKillPush(history, KillAt(ScopeOf(e), e.id), scope);
  }

  lemma ClearKeepsScope(events: seq<Event>, clears: seq<Clear>, history: seq<Commit>, scope: Scope, c: Clear, at: Scope)
    requires ScopeInv(events, clears, history, scope) && ScopeInv(events, clears, history, at)
    requires ActiveAt(events, clears, at) && c.epoch == Coalesce(MaxKilled(events, at))
    requires Clears(c, scope) <==> scope == at
    ensures ScopeInv(events, clears + [c], history + [ClearAt(at)], scope)
  {
    ActiveIsAboveWatermark(events, clears, at);
    MaxClearedPush(clears, c, scope);
    LastIsKillPush(history, ClearAt(at), scope);
  }

  lemma MoveKeepsScope(events: seq<Event>, clears: seq<Clear>, history: seq<Commit>, scope: Scope, id: string)
    requires ScopeInv(events, clears, history, scope)
    ensures ScopeInv(events, clears, history + [MoveOf(id)], scope)
  {
    LastIsKillPush(history, MoveOf(id), scope);
  }

  lemma BreakerKeepsScope(events: seq<Event>, clears: seq<Clear>, history: seq<Commit>, scope: Scope, e: Event)
    requires ScopeInv(events, clears, history, scope) && e.kind.Breaker?
    ensures ScopeInv(events + [e], clears, history, scope)
  {
    MaxKilledPush(events, e, scope);
  }

  /** The four ways a transaction can touch the kill tables and the history. */
  datatype Shape = Same | Kills(event: Event) | Breaks(event: Event) | Unkills(clear: Clear, scope: Scope) | Moves(id: string)

  function ShapeOf(db: Db, op: Op): Shape {
    var answer := Apply(db, op).1;
    match op
    case AppendKill(event, scope, actor, at) =>
      if answer.Epoch? then Kills(KillRow(db, event, scope, actor, at)) else Same
    case AppendBreaker(event, strategy, tenant, at) =>
      if answer.Done? then Breaks(Event(event, Breaker, Some(strategy), Some(tenant), None, "breaker-monitor", at))
      else Same
    case AppendClear(clear, scope, actor, observed, at) =>
      if answer.Cleared? then Unkills(ClearRow(db, clear, scope, actor, observed, at), scope) else Same
    case Provision(id, _, _, _, state, _) => if answer.Done? && state.Paper? then Moves(id) else Same
    case Transit(id, _, _, _, _) => if answer.Done? then Moves(id) else Same
    case Lock(id, _, _, _) => if answer.Done? then Moves(id) else Same
    case MarkServed(_, _) => Same
  }

  ghost predicate Touched(r: Run, r': Run, shape: Shape) {
    match shape
    case Same => r'.db.events == r.db.events && r'.db.clears == r.db.clears && r'.history == r.history
    case Kills(e) =>
      && e.kind.Kill? && e.epoch == Some(NextEpoch(r.db.events))
      && r'.db.events == r.db.events + [e] && r'.db.clears == r.db.clears
      && r'.history == r.history + [KillAt(ScopeOf(e), e.id)]
    case Breaks(e) =>
      && e.kind.Breaker? && e.epoch.None?
      && r'.db.events == r.db.events + [e] && r'.db.clears == r.db.clears && r'.history == r.history
    case Unkills(c, at) =>
      && ActiveAt(r.db.events, r.db.clears, at) && c.epoch == Coalesce(MaxKilled(r.db.events, at))
      && (forall s :: Clears(c, s) <==> s == at)
      && r'.db.events == r.db.events && r'.db.clears == r.db.clears + [c]
      && r'.history == r.history + [ClearAt(at)]
    case Moves(id) =>
      && r'.db.events == r.db.events && r'.db.clears == r.db.clears
      && r'.history == r.history + [MoveOf(id)]
  }

  lemma KillTouches(r: Run, op: Op)
    requires op.AppendKill? || op.AppendBreaker?
    ensures Touched(r, Next(r, op), ShapeOf(r.db, op))
  {
    assert r.history + [] == r.history;
  }

  lemma ClearTouches(r: Run, op: Op)
    requires op.AppendClear?
    ensures Touched(r, Next(r, op), ShapeOf(r.db, op))
  {
    assert r.history + [] == r.history;
  }

  lemma MoveTouches(r: Run, op: Op)
    requires op.Provision? || op.Transit? || op.Lock? || op.MarkServed?
    ensures Touched(r, Next(r, op), ShapeOf(r.db, op))
  {
    assert r.history + [] == r.history;
  }

  lemma NextTouches(r: Run, op: Op)
    ensures Touched(r, Next(r, op), ShapeOf(r.db, op))
  {
    if op.AppendKill? || op.AppendBreaker? {
      KillTouches(r, op);
    } else if op.AppendClear? {
      ClearTouches(r, op);
    } else {
      MoveTouches(r, op);
    }
  }

  lemma WatermarkStep(r: Run, op: Op)
    requires WatermarkInv(r)
    ensures WatermarkInv(Next(r, op))
  {
    NextTouches(r, op);
    TouchKeepsWatermark(r, Next(r, op), ShapeOf(r.db, op));
  }

  lemma TouchKeepsWatermark(r: Run, r': Run, shape: Shape)
    requires WatermarkInv(r) && Touched(r, r', shape)
    ensures WatermarkInv(r')
  {
    var events, clears, history := r.db.events, r.db.clears, r.history;
    forall scope
      ensures ScopeInv(r'.db.events, r'.db.clears, r'.history, scope)
    {
      assert ScopeInv(events, clears, history, scope);
      match shape
      case Same =>
      case Kills(e) => KillKeepsScope(events, clears, history, scope, e);
      case Breaks(e) => BreakerKeepsScope(events, clears, history, scope, e);
      case Unkills(c, at) =>
        assert ScopeInv(events, clears, history, at);
        ClearKeepsScope(events, clears, history, scope, c, at);
      case Moves(id) => MoveKeepsScope(events, clears, history, scope, id);
    }
    NextEpochIsAbove(events, OfPlatform);
  }

  lemma {:induction false} WatermarkHolds(ops: seq<Op>)
    ensures WatermarkInv(RunOf(ops))
  {
    if ops != [] {
      WatermarkHolds(ops[..|ops| - 1]);
      WatermarkStep(RunOf(ops[..|ops| - 1]), ops[|ops| - 1]);
    }
  }

  /**
   In every run the epoch predicate says exactly that, in some scope binding the
   strategy, the last kill or clear is a kill.
   */
  lemma ActiveKillIsLastWord(ops: seq<Op>, id: string)
    ensures var r := RunOf(ops);
            ActiveKill(r.db, id)
            <==> exists scope :: Binds(r.db.strategies, scope, id) && LastIsKill(r.history, scope)
  {
    WatermarkHolds(ops);
    var r := RunOf(ops);
    forall scope
      ensures ActiveAt(r.db.events, r.db.clears, scope) <==> LastIsKill(r.history, scope)
    {
      assert ScopeInv(r.db.events, r.db.clears, r.history, scope);
      ActiveIsAboveWatermark(r.db.events, r.db.clears, scope);
    }
    assert Binds(r.db.strategies, OfStrategy(id), id) && Binds(r.db.strategies, OfPlatform, id);
    if id in r.db.strategies {
      assert Binds(r.db.strategies, OfTenant(r.db.strategies[id].tenant), id);
    }
  }

  // ----- The operator's view agrees with the acting predicate -----

  lemma NoCoverIsAboveWatermark(clears: seq<Clear>, scope: Scope, epoch: int)
    requires epoch >= 1
    ensures NewestCovering(clears, scope, epoch).None? <==> epoch > Watermark(clears, scope)
  {
    var m := MaxCleared(clears, scope);
    if m.Some? {
      var i :| 0 <= i < |clears| && Clears(clears[i], scope) && clears[i].epoch == m.value;
      assert clears[i] in clears;
    }
  }

  /** The view shows each bound kill of the first n events, and nothing else. */
  lemma {:induction false} ViewShows(db: Db, id: string, n: nat, b: BoundKill)
    requires n <= |db.events|
    ensures b in KillView(db, id, n)
            <==> exists i :: 0 <= i < n && Shown(db, db.events[i], id) && b == KillRowOf(db, db.events[i])
  {
    if n > 0 {
      ViewShows(db, id, n - 1, b);
    }
  }

  /** A strategy is killed exactly when some row of the view has no covering clear. */
  lemma KillViewAgrees(db: Db, id: string)
    requires EpochsInv(db.events)
    ensures ActiveKill(db, id)
            <==> exists b :: b in KillView(db, id, |db.events|) && b.cleared.None?
  {
    var n := |db.events|;
    if ActiveKill(db, id) {
      var scope, i := ActiveWitness(db, id);
      var e := db.events[i];
      NoCoverIsAboveWatermark(db.clears, scope, e.epoch.value);
      ViewShows(db, id, n, KillRowOf(db, e));
    }
    if b :| b in KillView(db, id, n) && b.cleared.None? {
      ViewShows(db, id, n, b);
      var i :| 0 <= i < n && Shown(db, db.events[i], id) && b == KillRowOf(db, db.events[i]);
      NoCoverIsAboveWatermark(db.clears, ScopeOf(b.event), b.event.epoch.value);
      assert KillOf(db.events[i], ScopeOf(b.event));
      assert ActiveAt(db.events, db.clears, ScopeOf(b.event));
    }
  }

  /** In every run the operator's view and the acting predicate agree on whether a strategy is killed. */
  lemma OperatorSeesTheKill(ops: seq<Op>, id: string)
    ensures var db := RunOf(ops).db;
      ActiveKill(db, id) <==> exists b :: b in KillView(db, id, |db.events|) && b.cleared.None?
  {
    WatermarkHolds(ops);
    KillViewAgrees(RunOf(ops).db, id);
  }

  lemma ActiveWitness(db: Db, id: string) returns (scope: Scope, i: nat)
    requires ActiveKill(db, id)
    ensures i < |db.events| && KillOf(db.events[i], scope) && Binds(db.strategies, scope, id)
    ensures db.events[i].epoch.Some? && db.events[i].epoch.value > Watermark(db.clears, scope)
  {
    scope := if ActiveAt(db.events, db.clears, OfStrategy(id)) then OfStrategy(id)
             else if ActiveAt(db.events, db.clears, OfPlatform) then OfPlatform
             else OfTenant(db.strategies[id].tenant);
    i :| 0 <= i < |db.events| && KillOf(db.events[i], scope)
         && db.events[i].epoch.Some? && db.events[i].epoch.value > Watermark(db.clears, scope);
  }

  /** Kill epochs rise with the rows, so epochs and row order agree. */
  ghost predicate EpochsRise(events: seq<Event>) {
    forall i, j :: 0 <= i < j < |events| && events[i].kind.Kill? && events[j].kind.Kill? ==>
      events[i].epoch.Some? && events[j].epoch.Some? && events[i].epoch.value < events[j].epoch.value
  }

  lemma {:induction false} EpochsRiseInRuns(ops: seq<Op>)
    ensures EpochsRise(RunOf(ops).db.events)
  {
    if ops != [] {
      var r, op := RunOf(ops[..|ops| - 1]), ops[|ops| - 1];
      EpochsRiseInRuns(ops[..|ops| - 1]);
      WatermarkHolds(ops[..|ops| - 1]);
      NextTouches(r, op);
    }
  }

  predicate Older(a: Event, b: Event) {
    a.epoch.Some? && b.epoch.Some? && a.epoch.value < b.epoch.value
  }

  /** Rows of the view over the first n events are older than the n-th. */
  lemma ViewIsOlder(db: Db, id: string, n: nat)
    requires n < |db.events| && EpochsRise(db.events) && db.events[n].kind.Kill?
    ensures forall b :: b in KillView(db, id, n) ==> Older(b.event, db.events[n])
  {
    forall b | b in KillView(db, id, n)
      ensures Older(b.event, db.events[n])
    {
      ViewShows(db, id, n, b);
    }
  }

  ghost predicate Falling(rows: seq<BoundKill>) {
    forall i, j :: 0 <= i < j < |rows| ==> Older(rows[j].event, rows[i].event)
  }

  lemma FallingPrepend(b: BoundKill, rows: seq<BoundKill>)
    requires Falling(rows) && forall x :: x in rows ==> Older(x.event, b.event)
    ensures Falling([b] + rows)
  {
  }

  /** The view lists the bound kills by falling epoch. */
  lemma {:induction false} KillViewIsNewestFirst(db: Db, id: string, n: nat)
    requires n <= |db.events| && EpochsRise(db.events)
    ensures Falling(KillView(db, id, n))
  {
    if n > 0 {
      KillViewIsNewestFirst(db, id, n - 1);
      var e, older := db.events[n - 1], KillView(db, id, n - 1);
      if Shown(db, e, id) {
        ViewIsOlder(db, id, n - 1);
        FallingPrepend(KillRowOf(db, e), older);
      }
    }
  }
}
