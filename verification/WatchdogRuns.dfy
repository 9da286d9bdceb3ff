/**
 Runs of the watchdog with beats, passes, restarts and any other transaction of the
 safety store between passes.
 */
module WatchdogRuns {
  import opened Wrappers
  import opened SafetyTables
  import opened Watchdog

  datatype Step =
    | Beat(id: string, at: int)
    | Tick(pass: Pass)
    | Other(op: Op)
    | Restart(now: int)

  function Next(w: Watch, step: Step): Watch {
    match step
    case Beat(id, at) => Beaten(w, id, at)
    case Tick(p) => Passed(w, p)
    case Other(op) => w.(db := Apply(w.db, op).0)
    case Restart(now) => Watch(now, map[], map[], w.db)
  }

  /** The state before the n-th step. */
  ghost function At(w0: Watch, steps: seq<Step>, n: nat): Watch
    requires n <= |steps|
  {
    if n == 0 then w0 else Next(At(w0, steps, n - 1), steps[n - 1])
  }

  // ----- Why a strategy's entry stands -----

  /** A pass at step q saw the strategy live, and so did every pass since; nothing restarted. */
  ghost predicate WatchedSince(w0: Watch, steps: seq<Step>, q: nat, n: nat, id: string)
    requires n <= |steps|
  {
    && q < n && steps[q].Tick?
    && forall k :: q <= k < n ==>
         !steps[k].Restart? && (steps[k].Tick? ==> id in LiveIds(At(w0, steps, k).db))
  }

  /** Every beat since step q is on record or older than what is. */
  ghost predicate BeatsKept(w: Watch, steps: seq<Step>, q: nat, n: nat, id: string)
    requires n <= |steps|
  {
    forall k :: q < k < n && steps[k].Beat? && steps[k].id == id ==>
      id in w.lastSeen && steps[k].at <= w.lastSeen[id]
  }

  /** What is on record is a beat since step q. */
  ghost predicate BeatsReal(w: Watch, steps: seq<Step>, q: nat, n: nat, id: string)
    requires n <= |steps|
  {
    id in w.lastSeen ==> exists k :: q < k < n && steps[k].Beat? && steps[k].id == id && steps[k].at == w.lastSeen[id]
  }

  ghost predicate Entered(w0: Watch, steps: seq<Step>, q: nat, n: nat, id: string)
    requires n <= |steps|
  {
    var w := At(w0, steps, n);
    && WatchedSince(w0, steps, q, n, id)
    && id in w.firstWatched && w.firstWatched[id] == steps[q].pass.now
    && BeatsKept(w, steps, q, n, id) && BeatsReal(w, steps, q, n, id)
  }

  ghost predicate Explained(w0: Watch, steps: seq<Step>, n: nat)
    requires n <= |steps|
  {
    forall id :: id in At(w0, steps, n).firstWatched ==> HasEntry(w0, steps, n, id)
  }

  ghost predicate HasEntry(w0: Watch, steps: seq<Step>, n: nat, id: string)
    requires n <= |steps|
  {
    exists q: nat :: Entered(w0, steps, q, n, id)
  }

  // ----- One pass -----

  lemma ObservedKeeps(w: Watch, id: string, now: int, other: string)
    requires other in w.firstWatched
    ensures var w' := Observed(w, id, now);
      && other in w'.firstWatched && w'.firstWatched[other] == w.firstWatched[other]
      && (other in w.lastSeen <==> other in w'.lastSeen)
      && (other in w.lastSeen ==> w'.lastSeen[other] == w.lastSeen[other])
      && w'.startedAt == w.startedAt
  {
  }

  /** What a pass leaves in memory about a strategy. */
  ghost predicate SameMemory(w: Watch, w': Watch, id: string) {
    && id in w.firstWatched && id in w'.firstWatched && w'.firstWatched[id] == w.firstWatched[id]
    && (id in w.lastSeen <==> id in w'.lastSeen)
    && (id in w.lastSeen ==> w'.lastSeen[id] == w.lastSeen[id])
  }

  lemma {:induction false} WatchAllKeeps(w: Watch, ids: seq<string>, p: Pass, id: string)
    ensures var w' := WatchAll(w, ids, p);
      && w'.startedAt == w.startedAt
      && (id in w.firstWatched ==> SameMemory(w, w', id))
      && (id !in w.firstWatched && id in ids ==> id in w'.firstWatched && w'.firstWatched[id] == p.now && id !in w'.lastSeen)
      && (id !in w.firstWatched && id !in ids ==> id !in w'.firstWatched)
  {
    if ids != [] {
      var before, last := ids[..|ids| - 1], ids[|ids| - 1];
      WatchAllKeeps(w, before, p, id);
      assert ids == before + [last];
      var mid := WatchAll(w, before, p);
      if id in mid.firstWatched {
        ObservedKeeps(mid, last, p.now, id);
      }
    }
  }

  /** After a pass exactly the live strategies are watched: those kept, and those just entered. */
  lemma PassMemory(w: Watch, p: Pass, id: string)
    ensures var w' := Passed(w, p);
      && w'.startedAt == w.startedAt
      && (id in w'.firstWatched <==> id in LiveIds(w.db))
      && (id in LiveIds(w.db) && id in w.firstWatched ==> SameMemory(w, w', id))
      && (id in LiveIds(w.db) && id !in w.firstWatched ==> w'.firstWatched[id] == p.now && id !in w'.lastSeen)
  {
    WatchAllKeeps(Pruned(w, LiveIds(w.db)), InOrder(LiveIds(w.db)), p, id);
  }

  // ----- Every run -----

  lemma WatchedLonger(w0: Watch, steps: seq<Step>, q: nat, n: nat, id: string)
    requires n < |steps| && !steps[n].Restart? && WatchedSince(w0, steps, q, n, id)
    requires steps[n].Tick? ==> id in LiveIds(At(w0, steps, n).db)
    ensures WatchedSince(w0, steps, q, n + 1, id)
  {
  }

  /** A step other than a pass keeps an entry, and a beat is put on record. */
  lemma MemoryBetweenPasses(w: Watch, step: Step, id: string)
    requires !step.Tick? && !step.Restart? && id in w.firstWatched
    ensures var w' := Next(w, step);
      && id in w'.firstWatched && w'.firstWatched[id] == w.firstWatched[id]
      && (id in w.lastSeen ==> id in w'.lastSeen && w.lastSeen[id] <= w'.lastSeen[id])
      && (step.Beat? && step.id == id ==> id in w'.lastSeen && step.at <= w'.lastSeen[id])
      && (id in w'.lastSeen ==>
            || (id in w.lastSeen && w'.lastSeen[id] == w.lastSeen[id])
            || (step.Beat? && step.id == id && step.at == w'.lastSeen[id]))
  {
  }

  lemma BeatsStayKept(w: Watch, w': Watch, steps: seq<Step>, q: nat, n: nat, id: string)
    requires n < |steps| && BeatsKept(w, steps, q, n, id)
    requires id in w.lastSeen ==> id in w'.lastSeen && w.lastSeen[id] <= w'.lastSeen[id]
    requires steps[n].Beat? && steps[n].id == id ==> id in w'.lastSeen && steps[n].at <= w'.lastSeen[id]
    ensures BeatsKept(w', steps, q, n + 1, id)
  {
  }

  lemma BeatsStayReal(w: Watch, w': Watch, steps: seq<Step>, q: nat, n: nat, id: string)
    requires q < n < |steps| && BeatsReal(w, steps, q, n, id)
    requires id in w'.lastSeen ==>
      || (id in w.lastSeen && w'.lastSeen[id] == w.lastSeen[id])
      || (steps[n].Beat? && steps[n].id == id && steps[n].at == w'.lastSeen[id])
    ensures BeatsReal(w', steps, q, n + 1, id)
  {
    if id in w.lastSeen {
      var k :| q < k < n && steps[k].Beat? && steps[k].id == id && steps[k].at == w.lastSeen[id];
    }
  }

  /** An entry stands while its strategy stays watched and nothing restarts. */
  lemma EnteredStays(w0: Watch, steps: seq<Step>, q: nat, n: nat, id: string)
    requires n < |steps|
    ensures !steps[n].Restart? && Entered(w0, steps, q, n, id) && id in At(w0, steps, n + 1).firstWatched
            ==> Entered(w0, steps, q, n + 1, id)
  {
    if !steps[n].Restart? && Entered(w0, steps, q, n, id) && id in At(w0, steps, n + 1).firstWatched {
      var w, w' := At(w0, steps, n), At(w0, steps, n + 1);
      if steps[n].Tick? {
        PassMemory(w, steps[n].pass, id);
      } else {
        MemoryBetweenPasses(w, steps[n], id);
      }
      WatchedLonger(w0, steps, q, n, id);
      BeatsStayKept(w, w', steps, q, n, id);
      BeatsStayReal(w, w', steps, q, n, id);
    }
  }

  lemma EnteredNow(w0: Watch, steps: seq<Step>, n: nat, id: string)
    requires n < |steps| && steps[n].Tick? && id !in At(w0, steps, n).firstWatched
    requires id in At(w0, steps, n + 1).firstWatched
    ensures Entered(w0, steps, n, n + 1, id)
  {
    PassMemory(At(w0, steps, n), steps[n].pass, id);
  }

  lemma OnlyPassesEnter(w: Watch, step: Step)
    requires !step.Tick?
    ensures Next(w, step).firstWatched == w.firstWatched || Next(w, step).firstWatched == map[]
    ensures !step.Restart? ==> Next(w, step).firstWatched == w.firstWatched
  {
  }

  lemma ExplainedStep(w0: Watch, steps: seq<Step>, n: nat)
    requires n < |steps| && Explained(w0, steps, n)
    ensures Explained(w0, steps, n + 1)
  {
    var w, w' := At(w0, steps, n), At(w0, steps, n + 1);
    if !steps[n].Tick? {
      OnlyPassesEnter(w, steps[n]);
    }
    forall id | id in w'.firstWatched
      ensures HasEntry(w0, steps, n + 1, id)
    {
      if id in w.firstWatched {
        assert HasEntry(w0, steps, n, id);
        var q: nat :| Entered(w0, steps, q, n, id);
        if steps[n].Restart? {
          assert false;
        }
        EnteredStays(w0, steps, q, n, id);
      } else {
        EnteredNow(w0, steps, n, id);
      }
    }
  }

  lemma {:induction false} RunIsExplained(w0: Watch, steps: seq<Step>, n: nat)
    requires n <= |steps| && w0.firstWatched == map[]
    ensures Explained(w0, steps, n)
  {
    if n > 0 {
      RunIsExplained(w0, steps, n - 1);
      ExplainedStep(w0, steps, n - 1);
    }
  }

  // ----- Kills -----

  /** The pass state in which the i-th strategy is judged. */
  ghost function Judged(w: Watch, ids: seq<string>, p: Pass, i: nat): Watch
    requires i < |ids|
  {
    Observed(WatchAll(w, ids[..i], p), ids[i], p.now)
  }

  /** The i-th strategy's judgement appended this kill row. */
  ghost predicate Fired(w: Watch, ids: seq<string>, p: Pass, i: nat, e: Event)
    requires i < |ids|
  {
    var mid, id := Judged(w, ids, p, i), ids[i];
    && e.kind.Kill? && e.strategy == Some(id) && e.actor == "watchdog" && e.at == p.now
    && !ActiveKill(mid.db, id)
    && id in mid.firstWatched && SilenceAge(mid, id, p.now) > KillAfter(p, id)
  }

  /** One strategy's judgement appends at most one row, and only a fired kill. */
  lemma WatchOneAppends(w: Watch, id: string, p: Pass)
    ensures var mid, w' := Observed(w, id, p.now), WatchOne(w, id, p);
      || w'.db.events == w.db.events
      || (&& |w'.db.events| == |w.db.events| + 1 && w'.db.events[..|w.db.events|] == w.db.events
          && var e := w'.db.events[|w.db.events|];
             && e.kind.Kill? && e.strategy == Some(id) && e.actor == "watchdog" && e.at == p.now
             && !ActiveKill(mid.db, id) && SilenceAge(mid, id, p.now) > KillAfter(p, id))
  {
    var mid := Observed(w, id, p.now);
    var op := AppendKill(p.event(id), OfStrategy(id), "watchdog", p.now);
    if WatchOne(w, id, p).db.events != w.db.events {
      var row := KillRow(mid.db, p.event(id), OfStrategy(id), "watchdog", p.now);
      assert Apply(mid.db, op).0.events == mid.db.events + [row];
    }
  }

  /** Longer than the span since the monitor's start, the entry into the watch set and the last beat. */
  predicate Silent(w: Watch, id: string, now: int, span: int) {
    && now - w.startedAt > span
    && now - (if id in w.firstWatched then w.firstWatched[id] else now) > span
    && (id in w.firstWatched && id in w.lastSeen ==> now - w.lastSeen[id] > span)
  }

  lemma SilentExactly(w: Watch, id: string, now: int, span: int)
    requires span > 0
    ensures SilenceAge(Observed(w, id, now), id, now) > span <==> Silent(w, id, now, span)
  {
  }

  /** With the store answering and a fresh event id, a silence is killed exactly when it is long enough and unkilled. */
  lemma LongSilenceIsKilled(w: Watch, id: string, p: Pass)
    requires id in w.db.strategies && p.answers(id) && !HasEvent(w.db, p.event(id))
    ensures |WatchOne(w, id, p).db.events| > |w.db.events|
            <==> !ActiveKill(w.db, id) && Silent(w, id, p.now, if p.reconciled && p.exposed(id) then 90 else 600)
  {
    var mid := Observed(w, id, p.now);
    var op := AppendKill(p.event(id), OfStrategy(id), "watchdog", p.now);
    var row := KillRow(mid.db, p.event(id), OfStrategy(id), "watchdog", p.now);
    assert Apply(mid.db, op).0.events == mid.db.events + [row];
    SilentExactly(w, id, p.now, KillAfter(p, id));
  }

  lemma {:induction false} NewRowsFired(w: Watch, ids: seq<string>, p: Pass, j: nat) returns (i: nat)
    requires |w.db.events| <= j < |WatchAll(w, ids, p).db.events|
    ensures i < |ids| && Fired(w, ids, p, i, WatchAll(w, ids, p).db.events[j])
  {
    assert ids != [];
    var n := |ids| - 1;
    var before := WatchAll(w, ids[..n], p);
    WatchOneAppends(before, ids[n], p);
    if j < |before.db.events| {
      i := NewRowsFired(w, ids[..n], p, j);
      assert ids[..n][..i] == ids[..i];
      assert WatchAll(w, ids, p).db.events[j] == before.db.events[j];
    } else {
      i := n;
    }
  }

  /** A strategy that fires was watched before the pass, and is judged on what was known then. */
  lemma FiredWasWatched(w: Watch, ids: seq<string>, p: Pass, i: nat, e: Event)
    requires i < |ids| && Fired(w, ids, p, i, e)
    requires forall a, b :: 0 <= a < b < |ids| ==> ids[a] != ids[b]
    ensures ids[i] in w.firstWatched && SilenceAge(w, ids[i], p.now) > KillAfter(p, ids[i])
  {
    assert ids[i] !in ids[..i];
    WatchAllKeeps(w, ids[..i], p, ids[i]);
  }

  /** No beat since step q reaches into the last span seconds before t. */
  ghost predicate SilentSince(steps: seq<Step>, q: nat, n: nat, id: string, t: int, span: int)
    requires n <= |steps|
  {
    forall k :: q < k < n && steps[k].Beat? && steps[k].id == id ==> t - steps[k].at > span
  }

  /** Each row of a pass is a kill of one live strategy, watched before it, for its silence then. */
  lemma RowIsFired(w: Watch, p: Pass, j: nat) returns (id: string, i: nat)
    requires |w.db.events| <= j < |Passed(w, p).db.events|
    ensures var live := LiveIds(w.db); var pruned := Pruned(w, live);
      && id in live && i < |InOrder(live)| && InOrder(live)[i] == id
      && Fired(pruned, InOrder(live), p, i, Passed(w, p).db.events[j])
      && id in pruned.firstWatched && SilenceAge(pruned, id, p.now) > KillAfter(p, id)
  {
    var live := LiveIds(w.db);
    var pruned, ids := Pruned(w, live), InOrder(live);
    i := NewRowsFired(pruned, ids, p, j);
    id := ids[i];
    FiredWasWatched(pruned, ids, p, i, Passed(w, p).db.events[j]);
  }

  /**
   In every run, each row a pass appends is a watchdog kill of a strategy that was live
   at that pass and at every pass since one more than the span earlier, without a beat
   since that entry inside the span; the monitor had been up for longer than the span,
   and no uncleared kill bound the strategy. The span is 90 s with the reconciled
   exposure path and 600 s without.
   */
  lemma WatchdogKillIsOldSilence(w0: Watch, steps: seq<Step>, n: nat, j: nat) returns (id: string, q: nat, i: nat)
    requires n < |steps| && steps[n].Tick? && w0.firstWatched == map[]
    requires |At(w0, steps, n).db.events| <= j < |At(w0, steps, n + 1).db.events|
    ensures var w, p := At(w0, steps, n), steps[n].pass;
      var live, span := LiveIds(w.db), if p.reconciled && p.exposed(id) then 90 else 600;
      && id in live && w.db.strategies[id].state in {LiveL1, LiveL2, LiveL3} && WatchedSince(w0, steps, q, n, id)
      && p.now - steps[q].pass.now > span && p.now - w.startedAt > span
      && SilentSince(steps, q, n, id, p.now, span)
      && i < |InOrder(live)| && InOrder(live)[i] == id
      && Fired(Pruned(w, live), InOrder(live), p, i, At(w0, steps, n + 1).db.events[j])
  {
    var w, p := At(w0, steps, n), steps[n].pass;
    assert At(w0, steps, n + 1) == Passed(w, p);
    id, i := RowIsFired(w, p, j);
    RunIsExplained(w0, steps, n);
    assert HasEntry(w0, steps, n, id);
    q :| Entered(w0, steps, q, n, id);
    SilenceSpans(w0, steps, q, n, id, p.now, KillAfter(p, id));
  }

  /** A silence longer than the span dates the entry, the beats and the monitor's start. */
  lemma SilenceSpans(w0: Watch, steps: seq<Step>, q: nat, n: nat, id: string, t: int, span: int)
    requires n <= |steps| && Entered(w0, steps, q, n, id)
    requires id in LiveIds(At(w0, steps, n).db)
    requires SilenceAge(Pruned(At(w0, steps, n), LiveIds(At(w0, steps, n).db)), id, t) > span
    ensures t - steps[q].pass.now > span && t - At(w0, steps, n).startedAt > span
    ensures SilentSince(steps, q, n, id, t, span)
  {
  }
}
