/**
 Exactly which kills a watchdog pass appends, over every run: one row for each live
 strategy whose silence is long enough and that no kill binds, and no other.
 */
module WatchdogKills {
  import opened Wrappers
  import opened SafetyTables
  import opened Watchdog
  import opened WatchdogRuns

  /** Kill rows of one strategy. */
  function RowsOf(events: seq<Event>, id: string): nat {
    if events == [] then 0
    else
      var e := events[|events| - 1];
      RowsOf(events[..|events| - 1], id) + if e.kind == Kill && e.strategy == Some(id) then 1 else 0
  }

  lemma RowsPush(events: seq<Event>, e: Event, id: string)
    ensures RowsOf(events + [e], id) == RowsOf(events, id) + if e.kind == Kill && e.strategy == Some(id) then 1 else 0
  {
    assert (events + [e])[..|events|] == events;
  }

  lemma ActivePush(events: seq<Event>, e: Event, clears: seq<Clear>, scope: Scope)
    requires !KillOf(e, scope)
    ensures ActiveAt(events + [e], clears, scope) <==> ActiveAt(events, clears, scope)
  {
    var all := events + [e];
    assert forall i :: 0 <= i < |events| ==> all[i] == events[i];
    if ActiveAt(events, clears, scope) {
      var i :| 0 <= i < |events| && KillOf(events[i], scope)
               && events[i].epoch.Some? && events[i].epoch.value > Watermark(clears, scope);
      assert KillOf(all[i], scope);
    }
  }

  /** A judgement leaves the tables alone or appends one kill of its own strategy. */
  ghost predicate Judges(db: Db, db': Db, id: string, event: string) {
    || db' == db
    || exists e: Event :: && e.kind == Kill && e.strategy == Some(id) && e.id == event
                          && db' == db.(events := db.events + [e])
  }

  lemma WatchOneJudges(w: Watch, id: string, p: Pass)
    ensures Judges(w.db, WatchOne(w, id, p).db, id, p.event(id))
  {
    var db, op := w.db, AppendKill(p.event(id), OfStrategy(id), "watchdog", p.now);
    if WatchOne(w, id, p).db != db {
      var e := KillRow(db, p.event(id), OfStrategy(id), "watchdog", p.now);
      assert Apply(db, op).0 == db.(events := db.events + [e]);
    }
  }

  /** What a judgement of another strategy leaves as it was. */
  ghost predicate SameFor(db: Db, db': Db, id: string, event: string) {
    && db'.strategies == db.strategies && RowsOf(db'.events, id) == RowsOf(db.events, id)
    && (ActiveKill(db', id) <==> ActiveKill(db, id)) && (HasEvent(db', event) <==> HasEvent(db, event))
  }

  lemma JudgingOthers(db: Db, db': Db, id: string, event: string, other: string, otherEvent: string)
    requires Judges(db, db', id, event) && other != id && otherEvent != event
    ensures SameFor(db, db', other, otherEvent)
  {
    if db' != db {
      var e: Event :| && e.kind == Kill && e.strategy == Some(id) && e.id == event
                      && db' == db.(events := db.events + [e]);
      RowsPush(db.events, e, other);
      ActivePush(db.events, e, db.clears, OfStrategy(other));
      ActivePush(db.events, e, db.clears, OfPlatform);
      if other in db.strategies {
        ActivePush(db.events, e, db.clears, OfTenant(db.strategies[other].tenant));
      }
      if HasEvent(db, otherEvent) {
        var i :| 0 <= i < |db.events| && db.events[i].id == otherEvent;
        assert db'.events[i].id == otherEvent;
      }
    }
  }

  ghost predicate DistinctEvents(p: Pass) {
    forall a, b :: a != b ==> p.event(a) != p.event(b)
  }

  lemma {:induction false} WatchAllLeaves(w: Watch, ids: seq<string>, p: Pass, id: string)
    requires id !in ids && DistinctEvents(p)
    ensures SameFor(w.db, WatchAll(w, ids, p).db, id, p.event(id))
  {
    if ids != [] {
      var before, last := ids[..|ids| - 1], ids[|ids| - 1];
      WatchAllLeaves(w, before, p, id);
      WatchOneJudges(WatchAll(w, before, p), last, p);
      JudgingOthers(WatchAll(w, before, p).db, WatchAll(w, ids, p).db, last, p.event(last), id, p.event(id));
    }
  }

  /** The span of silence that kills: 90 s with reconciled unprotected exposure, 600 s without. */
  function Span(p: Pass, id: string): int {
    if p.reconciled && p.exposed(id) then 90 else 600
  }

  lemma JudgedExactly(w: Watch, id: string, p: Pass)
    requires id in w.db.strategies && p.answers(id) && !HasEvent(w.db, p.event(id))
    ensures RowsOf(WatchOne(w, id, p).db.events, id)
         == RowsOf(w.db.events, id) + if !ActiveKill(w.db, id) && Silent(w, id, p.now, Span(p, id)) then 1 else 0
  {
    WatchOneJudges(w, id, p);
    LongSilenceIsKilled(w, id, p);
    var db' := WatchOne(w, id, p).db;
    if db' != w.db {
      var e: Event :| && e.kind == Kill && e.strategy == Some(id) && e.id == p.event(id)
                      && db' == w.db.(events := w.db.events + [e]);
      RowsPush(w.db.events, e, id);
    }
  }

  lemma {:induction false} WatchAllExactly(w: Watch, ids: seq<string>, p: Pass, id: string)
    requires id in ids && (forall i, j :: 0 <= i < j < |ids| ==> ids[i] != ids[j]) && DistinctEvents(p)
    requires id in w.db.strategies && p.answers(id) && !HasEvent(w.db, p.event(id))
    ensures RowsOf(WatchAll(w, ids, p).db.events, id)
         == RowsOf(w.db.events, id) + if !ActiveKill(w.db, id) && Silent(w, id, p.now, Span(p, id)) then 1 else 0
  {
    var before, last := ids[..|ids| - 1], ids[|ids| - 1];
    var mid := WatchAll(w, before, p);
    assert ids == before + [last] && last !in before;
    if last == id {
      WatchAllLeaves(w, before, p, id);
      WatchAllKeeps(w, before, p, id);
      JudgedExactly(mid, id, p);
    } else {
      WatchAllExactly(w, before, p, id);
      WatchOneJudges(mid, last, p);
      JudgingOthers(mid.db, WatchAll(w, ids, p).db, last, p.event(last), id, p.event(id));
    }
  }

  lemma PruningKeepsTheLive(w: Watch, live: set<string>, id: string, now: int, span: int)
    requires id in live
    ensures Pruned(w, live).db == w.db && (Silent(Pruned(w, live), id, now, span) <==> Silent(w, id, now, span))
  {
  }

  lemma OrderHasTheLive(db: Db, id: string)
    requires id in db.strategies
    ensures id in InOrder(LiveIds(db)) <==> db.strategies[id].state in {LiveL1, LiveL2, LiveL3}
  {
  }

  /**
   A pass appends one kill row for a live strategy exactly when no kill binds it and its
   silence is longer than the span; the store answers and event ids are fresh.
   */
  lemma PassKillsExactly(w: Watch, p: Pass, id: string)
    requires id in w.db.strategies && w.db.strategies[id].state in {LiveL1, LiveL2, LiveL3}
    requires DistinctEvents(p) && p.answers(id) && !HasEvent(w.db, p.event(id))
    ensures RowsOf(Passed(w, p).db.events, id)
         == RowsOf(w.db.events, id) + if !ActiveKill(w.db, id) && Silent(w, id, p.now, Span(p, id)) then 1 else 0
  {
    var live := LiveIds(w.db);
    OrderHasTheLive(w.db, id);
    PruningKeepsTheLive(w, live, id, p.now, Span(p, id));
    assert Passed(w, p) == WatchAll(Pruned(w, live), InOrder(live), p);
    WatchAllExactly(Pruned(w, live), InOrder(live), p, id);
  }

  /** And none for any other strategy. */
  lemma PassSparesTheRest(w: Watch, p: Pass, id: string)
    requires id in w.db.strategies ==> w.db.strategies[id].state !in {LiveL1, LiveL2, LiveL3}
    requires DistinctEvents(p)
    ensures RowsOf(Passed(w, p).db.events, id) == RowsOf(w.db.events, id)
  {
    var live := LiveIds(w.db);
    WatchAllLeaves(Pruned(w, live), InOrder(live), p, id);
  }

  // ----- Every run -----

  /** It entered the watch set more than the span ago, and has not beaten inside the span since. */
  ghost predicate LongSilent(w0: Watch, steps: seq<Step>, n: nat, id: string, now: int, span: int)
    requires n <= |steps|
  {
    && now - At(w0, steps, n).startedAt > span
    && exists q: nat :: Entered(w0, steps, q, n, id) && now - steps[q].pass.now > span
                        && SilentSince(steps, q, n, id, now, span)
  }

  lemma EntryTellsTheSilence(w0: Watch, steps: seq<Step>, q: nat, n: nat, id: string, now: int, span: int)
    requires n <= |steps| && span > 0 && Entered(w0, steps, q, n, id)
    ensures Silent(At(w0, steps, n), id, now, span)
            <==> && now - At(w0, steps, n).startedAt > span && now - steps[q].pass.now > span
                 && SilentSince(steps, q, n, id, now, span)
  {
    var w := At(w0, steps, n);
    if id in w.lastSeen {
      var k :| q < k < n && steps[k].Beat? && steps[k].id == id && steps[k].at == w.lastSeen[id];
    }
  }

  lemma LongSilentIsSilent(w0: Watch, steps: seq<Step>, n: nat, id: string, now: int, span: int)
    requires n <= |steps| && span > 0 && Explained(w0, steps, n)
    ensures LongSilent(w0, steps, n, id, now, span) <==> Silent(At(w0, steps, n), id, now, span)
  {
    if q: nat :| Entered(w0, steps, q, n, id) && now - steps[q].pass.now > span
                 && SilentSince(steps, q, n, id, now, span) {
      EntryTellsTheSilence(w0, steps, q, n, id, now, span);
    }
    if id in At(w0, steps, n).firstWatched {
      assert HasEntry(w0, steps, n, id);
      var q: nat :| Entered(w0, steps, q, n, id);
      EntryTellsTheSilence(w0, steps, q, n, id, now, span);
    }
  }

  /**
   In every run of beats, passes, restarts and other transactions, a pass appends one kill
   row for a live strategy exactly when no kill binds it and it has been silent for longer
   than the span since it entered the watch set and since the monitor started.
   */
  lemma SilenceIsKilledExactly(w0: Watch, steps: seq<Step>, n: nat, id: string)
    requires n < |steps| && steps[n].Tick? && w0.firstWatched == map[]
    requires var w, p := At(w0, steps, n), steps[n].pass;
      && id in w.db.strategies && w.db.strategies[id].state in {LiveL1, LiveL2, LiveL3}
      && DistinctEvents(p) && p.answers(id) && !HasEvent(w.db, p.event(id))
    ensures var w, p := At(w0, steps, n), steps[n].pass;
      RowsOf(At(w0, steps, n + 1).db.events, id)
      == RowsOf(w.db.events, id)
         + if !ActiveKill(w.db, id) && LongSilent(w0, steps, n, id, p.now, Span(p, id)) then 1 else 0
  {
    var w, p := At(w0, steps, n), steps[n].pass;
    PassKillsExactly(w, p, id);
    RunIsExplained(w0, steps, n);
    LongSilentIsSilent(w0, steps, n, id, p.now, Span(p, id));
  }
}
