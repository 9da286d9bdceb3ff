/**
 What every run of the safety store keeps: the audit rows of a strategy form a
 path from draft to its stored state, unserved kills still stand, and a live
 strategy only has kills newer than its latest transition.
 */
module SafetyLifecycle {
  import opened Wrappers
  import opened SafetyTables
  import opened SafetyRuns

  // ----- Audit rows form a path -----

  /** Follows a strategy's rows from draft; None when some row does not continue the path. */
  function Follow(rows: seq<Transition>, id: string): Option<State> {
    if rows == [] then Some(Draft)
    else
      var before, last := Follow(rows[..|rows| - 1], id), rows[|rows| - 1];
      if last.strategy != id then before
      else if before == Some(last.from) then Some(last.to)
      else None
  }

  ghost predicate PathInv(db: Db) {
    && (forall id :: id in db.strategies ==> Follow(db.transitions, id) == Some(db.strategies[id].state))
    && (forall id :: id !in db.strategies ==> Follow(db.transitions, id) == Some(Draft))
  }

  lemma FollowPush(rows: seq<Transition>, t: Transition, id: string)
    ensures Follow(rows + [t], id)
         == if t.strategy != id then Follow(rows, id)
            else if Follow(rows, id) == Some(t.from) then Some(t.to) else None
  {
    assert (rows + [t])[..|rows|] == rows;
  }

  lemma PathStep(db: Db, op: Op)
    requires PathInv(db)
    ensures PathInv(Apply(db, op).0)
  {
    var db' := Apply(db, op).0;
    if |db'.transitions| > |db.transitions| {
      var t := db'.transitions[|db.transitions|];
      assert db'.transitions == db.transitions + [t];
      forall id
        ensures Follow(db'.transitions, id)
             == if t.strategy != id then Follow(db.transitions, id)
                else if Follow(db.transitions, id) == Some(t.from) then Some(t.to) else None
      {
        FollowPush(db.transitions, t, id);
      }
    } else {
      assert db'.transitions == db.transitions;
    }
  }

  /** In every run, a strategy's audit rows are a path from draft ending at its stored state. */
  lemma {:induction false} AuditIsAPath(ops: seq<Op>)
    ensures PathInv(RunOf(ops).db)
  {
    if ops != [] {
      AuditIsAPath(ops[..|ops| - 1]);
      PathStep(RunOf(ops[..|ops| - 1]).db, ops[|ops| - 1]);
    }
  }

  // ----- Unserved kills still stand -----

  ghost predicate Stands(db: Db, e: Event) {
    e.epoch.Some? && e.epoch.value > Watermark(db.clears, ScopeOf(e))
  }

  ghost predicate UnservedInv(db: Db) {
    forall i :: 0 <= i < |db.events| ==> StandsIfUnserved(db, db.events[i])
  }

  /** Markers up to the scope's highest epoch serve every kill of the scope. */
  lemma ClearServesItsScope(db: Db, scope: Scope, upTo: int)
    requires upTo == Coalesce(MaxKilled(db.events, scope)) && EpochsInv(db.events)
    ensures var served := db.effects + Ids(Covered(db.events, db.effects, scope, upTo));
      forall i :: 0 <= i < |db.events| && KillOf(db.events[i], scope) ==> db.events[i].id in served
  {
    var covered := Covered(db.events, db.effects, scope, upTo);
    forall i | 0 <= i < |db.events| && KillOf(db.events[i], scope)
      ensures db.events[i].id in db.effects + Ids(covered)
    {
      var e := db.events[i];
      if e.id !in db.effects {
        assert e in covered;
        var k :| 0 <= k < |covered| && covered[k] == e;
        assert Ids(covered)[k] == e.id;
      }
    }
  }

  /**
   A clear ends its scope's kill and supersedes exactly the scope's unserved kills: each
   gets one marker and one alert that names it and the clear.
   */
  lemma ClearSupersedesExactly(r: Run, op: Op)
    requires WatermarkInv(r) && op.AppendClear? && Apply(r.db, op).1.Cleared?
    ensures var (db', answer) := Apply(r.db, op); var ids := answer.superseded;
      && !ActiveAt(db'.events, db'.clears, op.scope)
      && (forall x :: x in ids <==> exists i :: Unserved(r.db, op.scope, i) && r.db.events[i].id == x)
      && db'.effects == r.db.effects + ids && |db'.alerts| == |r.db.alerts| + |ids|
      && forall k :: 0 <= k < |ids| ==>
           db'.alerts[|r.db.alerts| + k].ref == ids[k] && db'.alerts[|r.db.alerts| + k].details == op.clear
  {
    var covered := Covered(r.db.events, r.db.effects, op.scope, op.observed);
    ClearUnfolds(r.db, op);
    ClearEndsTheKill(r, op);
    forall x
      ensures x in Ids(covered) <==> exists i :: Unserved(r.db, op.scope, i) && r.db.events[i].id == x
    {
      SupersededOnce(r.db, op.scope, op.observed, covered, x);
    }
  }

  lemma ClearUnfolds(db: Db, op: Op)
    requires op.AppendClear? && Apply(db, op).1.Cleared?
    ensures var (db', answer) := Apply(db, op);
      var covered := Covered(db.events, db.effects, op.scope, op.observed);
      && op.observed == Coalesce(MaxKilled(db.events, op.scope)) && answer.superseded == Ids(covered)
      && db'.events == db.events && db'.effects == db.effects + Ids(covered)
      && db'.alerts == db.alerts + SupersedeAlerts(covered, op.clear, op.at)
  {
  }

  lemma ClearEndsTheKill(r: Run, op: Op)
    requires WatermarkInv(r) && op.AppendClear? && Apply(r.db, op).1.Cleared?
    ensures !ActiveAt(Apply(r.db, op).0.events, Apply(r.db, op).0.clears, op.scope)
  {
    ClearUnfolds(r.db, op);
    ClearAppends(r.db, op);
    MaxClearedPush(r.db.clears, ClearRow(r.db, op.clear, op.scope, op.actor, op.observed, op.at), op.scope);
  }

  predicate Unserved(db: Db, scope: Scope, i: int) {
    0 <= i < |db.events| && KillOf(db.events[i], scope) && db.events[i].id !in db.effects
  }

  lemma SupersededOnce(db: Db, scope: Scope, upTo: int, covered: seq<Event>, x: string)
    requires EpochsInv(db.events) && upTo == Coalesce(MaxKilled(db.events, scope))
    requires covered == Covered(db.events, db.effects, scope, upTo)
    ensures x in Ids(covered) <==> exists i :: Unserved(db, scope, i) && db.events[i].id == x
  {
    if x in Ids(covered) {
      var k :| 0 <= k < |covered| && Ids(covered)[k] == x;
      assert covered[k] in covered;
      var i :| 0 <= i < |db.events| && db.events[i] == covered[k];
      assert Unserved(db, scope, i);
    }
    if i :| Unserved(db, scope, i) && db.events[i].id == x {
      assert db.events[i] in covered;
      var k :| 0 <= k < |covered| && covered[k] == db.events[i];
      assert Ids(covered)[k] == x;
    }
  }

  ghost predicate StandsIfUnserved(db: Db, e: Event) {
    e.kind.Kill? && e.id !in db.effects ==> Stands(db, e)
  }

  /** A clear serves every kill of its scope and leaves the other scopes' watermarks alone. */
  lemma ClearKeepsUnserved(r: Run, op: Op, i: nat)
    requires WatermarkInv(r) && op.AppendClear? && Apply(r.db, op).1.Cleared?
    requires i < |r.db.events| && StandsIfUnserved(r.db, r.db.events[i])
    ensures StandsIfUnserved(Next(r, op).db, r.db.events[i])
  {
    var e, c := r.db.events[i], ClearRow(r.db, op.clear, op.scope, op.actor, op.observed, op.at);
    ClearUnfolds(r.db, op);
    ClearServesItsScope(r.db, op.scope, op.observed);
    ClearAppends(r.db, op);
    MaxClearedPush(r.db.clears, c, ScopeOf(e));
    EffectsGrow(r.db, op);
    if ScopeOf(e) == op.scope && e.kind.Kill? {
      assert KillOf(e, op.scope);
    }
  }

  lemma ClearAppends(db: Db, op: Op)
    requires op.AppendClear? && Apply(db, op).1.Cleared?
    ensures var c := ClearRow(db, op.clear, op.scope, op.actor, op.observed, op.at);
      Apply(db, op).0.clears == db.clears + [c] && forall s :: Clears(c, s) <==> s == op.scope
  {
  }

  lemma EffectsGrow(db: Db, op: Op)
    ensures db.effects <= Apply(db, op).0.effects
    ensures !(op.AppendClear? && Apply(db, op).1.Cleared?) ==> Apply(db, op).0.clears == db.clears
  {
  }

  lemma UnservedStays(r: Run, op: Op, i: nat)
    requires WatermarkInv(r) && i < |r.db.events| && StandsIfUnserved(r.db, r.db.events[i])
    ensures StandsIfUnserved(Next(r, op).db, r.db.events[i])
  {
    if op.AppendClear? && Apply(r.db, op).1.Cleared? {
      ClearKeepsUnserved(r, op, i);
    } else {
      EffectsGrow(r.db, op);
    }
  }

  /** A fresh kill stands above its scope's watermark. */
  lemma FreshKillStands(r: Run, op: Op, i: nat)
    requires WatermarkInv(r) && |r.db.events| <= i < |Next(r, op).db.events|
    ensures StandsIfUnserved(Next(r, op).db, Next(r, op).db.events[i])
  {
    NextTouches(r, op);
    var e := Next(r, op).db.events[i];
    if e.kind.Kill? {
      NextEpochIsAbove(r.db.events, ScopeOf(e));
      assert ScopeInv(r.db.events, r.db.clears, r.history, ScopeOf(e));
    }
  }

  lemma UnservedStep(r: Run, op: Op)
    requires WatermarkInv(r) && UnservedInv(r.db)
    ensures UnservedInv(Next(r, op).db)
  {
    var db' := Next(r, op).db;
    NextTouches(r, op);
    forall i | 0 <= i < |db'.events|
      ensures StandsIfUnserved(db', db'.events[i])
    {
      if i < |r.db.events| {
        assert db'.events[i] == r.db.events[i];
        UnservedStays(r, op, i);
      } else {
        FreshKillStands(r, op, i);
      }
    }
  }

  /** In every run, a kill event without a served marker is still active at its own scope. */
  lemma {:induction false} UnservedKillsStand(ops: seq<Op>)
    ensures UnservedInv(RunOf(ops).db)
  {
    if ops != [] {
      UnservedKillsStand(ops[..|ops| - 1]);
      WatermarkHolds(ops[..|ops| - 1]);
      UnservedStep(RunOf(ops[..|ops| - 1]), ops[|ops| - 1]);
    }
  }

  // ----- A live strategy only has newer kills -----

  ghost predicate KillsRecorded(r: Run) {
    forall i :: 0 <= i < |r.db.events| && r.db.events[i].kind.Kill? ==>
      KillAt(ScopeOf(r.db.events[i]), r.db.events[i].id) in r.history
  }

  ghost predicate KillsStored(r: Run) {
    forall c :: c in r.history && c.KillAt? ==> HasEvent(r.db, c.event)
  }

  ghost predicate MoversKnown(r: Run) {
    forall c :: c in r.history && c.MoveOf? ==> c.id in r.db.strategies
  }

  ghost predicate Recorded(r: Run) {
    KillsRecorded(r) && KillsStored(r) && MoversKnown(r)
  }

  /** Every standing kill that binds a live strategy was committed after its latest transition. */
  ghost predicate NewerInv(r: Run) {
    forall id, i, j, k ::
      && id in r.db.strategies && IsLive(r.db.strategies[id].state)
      && 0 <= i < |r.db.events| && r.db.events[i].kind.Kill?
      && Binds(r.db.strategies, ScopeOf(r.db.events[i]), id) && Stands(r.db, r.db.events[i])
      && 0 <= j < |r.history| && r.history[j] == KillAt(ScopeOf(r.db.events[i]), r.db.events[i].id)
      && 0 <= k < |r.history| && r.history[k] == MoveOf(id)
      ==> k < j
  }

  lemma KillsRecordedStep(r: Run, r': Run, shape: Shape)
    requires KillsRecorded(r) && Touched(r, r', shape)
    ensures KillsRecorded(r')
  {
  }

  lemma KillsStoredStep(r: Run, r': Run, shape: Shape)
    requires KillsStored(r) && Touched(r, r', shape)
    ensures KillsStored(r')
  {
    forall c | c in r'.history && c.KillAt?
      ensures HasEvent(r'.db, c.event)
    {
      if c in r.history {
        var i :| 0 <= i < |r.db.events| && r.db.events[i].id == c.event;
        assert r'.db.events[i].id == c.event;
      } else {
        assert r'.db.events[|r.db.events|].id == c.event;
      }
    }
  }

  lemma StrategiesStay(r: Run, op: Op)
    ensures r.db.strategies.Keys <= Next(r, op).db.strategies.Keys
    ensures ShapeOf(r.db, op).Moves? ==> ShapeOf(r.db, op).id in Next(r, op).db.strategies
  {
  }

  lemma RecordedStep(r: Run, op: Op)
    requires Recorded(r)
    ensures Recorded(Next(r, op))
  {
    var shape := ShapeOf(r.db, op);
    NextTouches(r, op);
    StrategiesStay(r, op);
    KillsRecordedStep(r, Next(r, op), shape);
    KillsStoredStep(r, Next(r, op), shape);
    MoversKnownStep(r, Next(r, op), shape);
  }

  lemma MoversKnownStep(r: Run, r': Run, shape: Shape)
    requires MoversKnown(r) && Touched(r, r', shape)
    requires r.db.strategies.Keys <= r'.db.strategies.Keys
    requires shape.Moves? ==> shape.id in r'.db.strategies
    ensures MoversKnown(r')
  {
  }

  lemma BindsKeeps(db: Db, op: Op, scope: Scope, id: string)
    requires id in db.strategies
    ensures id in Apply(db, op).0.strategies
    ensures Binds(Apply(db, op).0.strategies, scope, id) <==> Binds(db.strategies, scope, id)
  {
  }

  lemma WatermarkOnlyRises(r: Run, op: Op, scope: Scope)
    requires WatermarkInv(r)
    ensures Watermark(Next(r, op).db.clears, scope) >= Watermark(r.db.clears, scope)
  {
    NextTouches(r, op);
    assert ScopeInv(r.db.events, r.db.clears, r.history, scope);
    match ShapeOf(r.db, op)
    case Unkills(c, at) => MaxClearedPush(r.db.clears, c, scope);
    case _ =>
  }

  lemma StandingIsActive(db: Db, i: nat, id: string)
    requires i < |db.events| && db.events[i].kind.Kill? && id in db.strategies
    requires Binds(db.strategies, ScopeOf(db.events[i]), id) && Stands(db, db.events[i])
    ensures ActiveKill(db, id)
  {
    assert KillOf(db.events[i], ScopeOf(db.events[i]));
    assert ActiveAt(db.events, db.clears, ScopeOf(db.events[i]));
  }

  lemma LiveMoveHasNoKill(r: Run, op: Op, id: string)
    requires ShapeOf(r.db, op) == Moves(id)
    ensures id in Next(r, op).db.strategies
    ensures IsLive(Next(r, op).db.strategies[id].state) ==> id in r.db.strategies && !ActiveKill(r.db, id)
  {
  }

  lemma StateKeeps(r: Run, op: Op, id: string)
    requires ShapeOf(r.db, op) != Moves(id) && id in Next(r, op).db.strategies
    ensures IsLive(Next(r, op).db.strategies[id].state) ==>
              id in r.db.strategies && r.db.strategies[id] == Next(r, op).db.strategies[id]
  {
  }

  lemma NewerStep(r: Run, op: Op)
    requires WatermarkInv(r) && Recorded(r) && NewerInv(r)
    ensures NewerInv(Next(r, op))
  {
    var r' := Next(r, op);
    NextTouches(r, op);
    forall id, i, j, k |
      && id in r'.db.strategies && IsLive(r'.db.strategies[id].state)
      && 0 <= i < |r'.db.events| && r'.db.events[i].kind.Kill?
      && Binds(r'.db.strategies, ScopeOf(r'.db.events[i]), id) && Stands(r'.db, r'.db.events[i])
      && 0 <= j < |r'.history| && r'.history[j] == KillAt(ScopeOf(r'.db.events[i]), r'.db.events[i].id)
      && 0 <= k < |r'.history| && r'.history[k] == MoveOf(id)
      ensures k < j
    {
      NewerAt(r, op, id, i, j, k);
    }
  }

  lemma NewerAt(r: Run, op: Op, id: string, i: nat, j: nat, k: nat)
    requires WatermarkInv(r) && Recorded(r) && NewerInv(r)
    requires var r' := Next(r, op);
      && id in r'.db.strategies && IsLive(r'.db.strategies[id].state)
      && 0 <= i < |r'.db.events| && r'.db.events[i].kind.Kill?
      && Binds(r'.db.strategies, ScopeOf(r'.db.events[i]), id) && Stands(r'.db, r'.db.events[i])
      && 0 <= j < |r'.history| && r'.history[j] == KillAt(ScopeOf(r'.db.events[i]), r'.db.events[i].id)
      && 0 <= k < |r'.history| && r'.history[k] == MoveOf(id)
    ensures k < j
  {
    var r' := Next(r, op);
    NextTouches(r, op);
    var shape := ShapeOf(r.db, op);
    if i >= |r.db.events| {
      NewKillIsLast(r, op, i, j);
    } else {
      var e := r.db.events[i];
      assert r'.db.events[i] == e;
      WatermarkOnlyRises(r, op, ScopeOf(e));
      assert Stands(r.db, e);
      if shape == Moves(id) {
        LiveMoveHasNoKill(r, op, id);
        BindsKeeps(r.db, op, ScopeOf(e), id);
        StandingIsActive(r.db, i, id);
        assert false;
      } else {
        StateKeeps(r, op, id);
        BindsKeeps(r.db, op, ScopeOf(e), id);
        assert k < |r.history|;
        assert r.history[k] == MoveOf(id);
        if j < |r.history| {
          assert r.history[j] == KillAt(ScopeOf(e), e.id);
        }
      }
    }
  }

  /** A committed kill's id is new to the history. */
  lemma KillIdIsNew(r: Run, op: Op, j: nat)
    requires Recorded(r) && op.AppendKill? && Apply(r.db, op).1.Epoch? && j < |r.history|
    ensures r.history[j] != KillAt(op.scope, op.event)
  {
    assert !HasEvent(r.db, op.event);
    assert r.history[j] in r.history;
  }

  /** A fresh kill row is the last commit. */
  lemma NewKillIsLast(r: Run, op: Op, i: nat, j: nat)
    requires Recorded(r)
    requires var r' := Next(r, op);
      && |r.db.events| <= i < |r'.db.events| && r'.db.events[i].kind.Kill?
      && j < |r'.history| && r'.history[j] == KillAt(ScopeOf(r'.db.events[i]), r'.db.events[i].id)
    ensures j == |r.history| == |Next(r, op).history| - 1
    ensures Next(r, op).history[j].KillAt?
  {
    NextTouches(r, op);
    assert op.AppendKill? && ScopeOf(Next(r, op).db.events[i]) == op.scope;
    if j < |r.history| {
      KillIdIsNew(r, op, j);
    }
  }

  /**
   In every run, a kill standing on a live strategy was appended after the
   strategy's latest transition row.
   */
  lemma {:induction false} LiveStrategiesOnlyHaveNewerKills(ops: seq<Op>)
    ensures Recorded(RunOf(ops)) && NewerInv(RunOf(ops))
  {
    if ops != [] {
      LiveStrategiesOnlyHaveNewerKills(ops[..|ops| - 1]);
      WatermarkHolds(ops[..|ops| - 1]);
      RecordedStep(RunOf(ops[..|ops| - 1]), ops[|ops| - 1]);
      NewerStep(RunOf(ops[..|ops| - 1]), ops[|ops| - 1]);
    }
  }
}
