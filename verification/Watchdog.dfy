/**
 The watchdog: heartbeats in memory, the live watch set, and the kill that a long
 enough silence appends. Times are seconds.
 */
module Watchdog {
  import opened Wrappers
  import opened Sorting
  import opened SafetyTables

  const SILENCE := 90
  const ESCALATION := 600

  /** The monitor's memory and the store it watches. */
  datatype Watch = Watch(startedAt: int, lastSeen: map<string, int>, firstWatched: map<string, int>, db: Db)

  /**
   One pass: its clock, the reconcile gate, and per strategy the exposure test, the
   fresh event id of a kill, and whether the store answers.
   */
  datatype Pass = Pass(now: int, reconciled: bool, exposed: string -> bool,
                       event: string -> string, answers: string -> bool)

  function LiveIds(db: Db): set<string> {
    set id | id in db.strategies && IsLive(db.strategies[id].state)
  }

  function InOrder(ids: set<string>): (r: seq<string>)
    ensures forall x :: x in r <==> x in ids
    ensures forall i, j :: 0 <= i < j < |r| ==> r[i] != r[j]
  {
    LexIsTotal();
    Listed(ids, LexLe)
  }

  function Beaten(w: Watch, id: string, at: int): Watch {
    if id in w.lastSeen && at <= w.lastSeen[id] then w else w.(lastSeen := w.lastSeen[id := at])
  }

  /** Leaving the watch set deletes both entries; a strategy never watched keeps its beats. */
  function Pruned(w: Watch, live: set<string>): Watch {
    var gone := w.firstWatched.Keys - live;
    w.(firstWatched := w.firstWatched - gone, lastSeen := w.lastSeen - gone)
  }

  /** Entering the watch set stamps the entry and drops any older beat. */
  function Observed(w: Watch, id: string, now: int): Watch {
    if id in w.firstWatched then w
    else w.(firstWatched := w.firstWatched[id := now], lastSeen := w.lastSeen - {id})
  }

  function Later(a: int, b: int): int {
    if a > b then a else b
  }

  /** Time since the last beat, the entry or the monitor's start, whichever is latest. */
  function SilenceAge(w: Watch, id: string, now: int): int
    requires id in w.firstWatched
  {
    var baseline := Later(w.startedAt, w.firstWatched[id]);
    now - (if id in w.lastSeen then Later(w.lastSeen[id], baseline) else baseline)
  }

  /** How long a silence must last to kill in this pass. */
  function KillAfter(p: Pass, id: string): int {
    if p.reconciled && p.exposed(id) then SILENCE else ESCALATION
  }

  function WatchOne(w0: Watch, id: string, p: Pass): Watch {
    var w := Observed(w0, id, p.now);
    if !p.answers(id) || ActiveKill(w.db, id) then w
    else if SilenceAge(w, id, p.now) > KillAfter(p, id)
    then w.(db := Apply(w.db, AppendKill(p.event(id), OfStrategy(id), "watchdog", p.now)).0)
    else w
  }

  function WatchAll(w: Watch, ids: seq<string>, p: Pass): Watch {
    if ids == [] then w else WatchOne(WatchAll(w, ids[..|ids| - 1], p), ids[|ids| - 1], p)
  }

  function Passed(w: Watch, p: Pass): Watch {
    var live := LiveIds(w.db);
    WatchAll(Pruned(w, live), InOrder(live), p)
  }

  ghost predicate Without(part: map<string, int>, m: map<string, int>, gone: set<string>) {
    part == m - gone
  }

  /** The keys handled so far that left the watch set. */
  ghost predicate Gone(gone: set<string>, all: set<string>, todo: set<string>, live: set<string>) {
    gone == (all - todo) - live
  }

  lemma GoneNext(gone: set<string>, all: set<string>, todo: set<string>, live: set<string>, id: string)
    requires todo <= all && id in todo && Gone(gone, all, todo, live)
    ensures Gone(if id in live then gone else gone + {id}, all, todo - {id}, live)
  {
  }

  lemma DropOne(m: map<string, int>, gone: set<string>, id: string)
    ensures Without(m - gone - {id}, m, gone + {id})
  {
  }

  class Monitor {
    const st: SafetyStore
    const startedAt: int
    var lastSeen: map<string, int>
    var firstWatched: map<string, int>

    function View(): Watch
      reads this, st
    {
      Watch(startedAt, lastSeen, firstWatched, st.Snapshot())
    }

    constructor (st: SafetyStore, now: int)
      ensures this.st == st && View() == Watch(now, map[], map[], st.Snapshot())
    {
      this.st, startedAt, lastSeen, firstWatched := st, now, map[], map[];
    }

    /** An out-of-order receipt never regresses the last beat. */
    method Beat(id: string, at: int)
      modifies this`lastSeen
      ensures View() == Beaten(old(View()), id, at)
    {
      if id !in lastSeen || at > lastSeen[id] {
        lastSeen := lastSeen[id := at];
      }
    }

    method PruneWatchSet(live: set<string>)
      modifies this`lastSeen, this`firstWatched
      ensures View() == Pruned(old(View()), live)
    {
      var todo := firstWatched.Keys;
      ghost var gone: set<string> := {};
      ghost var seen, first := lastSeen, firstWatched;
      while todo != {}
        invariant todo <= first.Keys && Gone(gone, first.Keys, todo, live)
        invariant Without(lastSeen, seen, gone) && Without(firstWatched, first, gone)
        decreases |todo|
      {
        var id :| id in todo;
        GoneNext(gone, first.Keys, todo, live, id);
        if id !in live {
          DropOne(first, gone, id);
          DropOne(seen, gone, id);
          firstWatched := firstWatched - {id};
          lastSeen := lastSeen - {id};
          gone := gone + {id};
        }
        todo := todo - {id};
      }
    }

    method Observe(id: string, now: int) returns (last: Option<int>)
      modifies this`lastSeen, this`firstWatched
      ensures View() == Observed(old(View()), id, now) && id in firstWatched
      ensures last == if id in lastSeen then Some(lastSeen[id]) else None
    {
      if id !in firstWatched {
        firstWatched := firstWatched[id := now];
        lastSeen := lastSeen - {id};
        return None;
      }
      last := if id in lastSeen then Some(lastSeen[id]) else None;
    }

    method WatchStrategy(id: string, p: Pass)
      modifies this`lastSeen, this`firstWatched, st
      ensures View() == WatchOne(old(View()), id, p)
    {
      var last := Observe(id, p.now);
      if !p.answers(id) || ActiveKill(st.Snapshot(), id) {
        return;
      }
      var baseline := if startedAt > firstWatched[id] then startedAt else firstWatched[id];
      var age := p.now - (if last.Some? && last.value > baseline then last.value else baseline);
      if age <= SILENCE {
        return;
      }
      if age > ESCALATION || (p.reconciled && p.exposed(id)) {
        var r := st.AppendStrategyKill(p.event(id), id, "watchdog", p.now);
      }
    }

    method WatchdogPass(p: Pass)
      modifies this`lastSeen, this`firstWatched, st
      ensures View() == Passed(old(View()), p)
    {
      var live := LiveIds(st.Snapshot());
      PruneWatchSet(live);
      WatchEach(InOrder(live), p);
    }

    method WatchEach(ids: seq<string>, p: Pass)
      modifies this`lastSeen, this`firstWatched, st
      ensures View() == WatchAll(old(View()), ids, p)
    {
      var n := 0;
      while n < |ids|
        invariant 0 <= n <= |ids|
        invariant View() == WatchAll(old(View()), ids[..n], p)
      {
        WatchNext(old(View()), ids, n, p);
        WatchStrategy(ids[n], p);
        n := n + 1;
      }
      assert ids[..n] == ids;
    }
  }

  lemma WatchNext(w: Watch, ids: seq<string>, n: nat, p: Pass)
    requires n < |ids|
    ensures WatchAll(w, ids[..n + 1], p) == WatchOne(WatchAll(w, ids[..n], p), ids[n], p)
  {
    assert ids[..n + 1][..n] == ids[..n];
  }
}
