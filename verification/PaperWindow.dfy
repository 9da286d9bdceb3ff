/**
 The paper-gate window. One pass over a strategy's time-ordered paper and paused
 rows must compute the recursive notion of a qualifying paper row.
 */
module PaperWindow {
  import opened Wrappers
  import opened SafetyTables
  import opened SafetyRuns
  import opened SafetyLifecycle
  import opened TimeOrder
  import PaperGate

  const Time: Transition -> int := (t: Transition) => t.at

  predicate Listed(t: Transition, id: string) {
    t.strategy == id && (t.to.Paper? || t.to.Paused?)
  }

  function Own(rows: seq<Transition>, id: string): seq<Transition> {
    Filter(rows, (t: Transition) => Listed(t, id))
  }

  /** The strategy's paper and paused rows in (recorded_at, rowid) order. */
  function WindowRows(db: Db, id: string): seq<Transition> {
    InTimeOrder(Own(db.transitions, id), Time)
  }

  predicate BindingKill(db: Db, e: Event, id: string) {
    e.kind.Kill? && Binds(db.strategies, ScopeOf(e), id)
  }

  /** A kill binds a strategy by its own id, by its tenant when it names no strategy, or when it names neither. */
  lemma KillsBindExactly(db: Db, e: Event, id: string)
    ensures BindingKill(db, e, id)
            <==> && e.kind == Kill
                 && (|| e.strategy == Some(id)
                     || (e.strategy == None && e.tenant.Some? && id in db.strategies
                         && db.strategies[id].tenant == e.tenant.value)
                     || (e.strategy == None && e.tenant == None))
  {
  }

  /** Recorded time of the newest binding kill row, cleared or not. */
  function NewestKill(db: Db, id: string, n: nat): (k: Option<int>)
    requires n <= |db.events|
    ensures k.None? <==> forall i :: 0 <= i < n ==> !BindingKill(db, db.events[i], id)
    ensures forall i :: 0 <= i < n && BindingKill(db, db.events[i], id) ==> db.events[i].at <= k.value
    ensures k.Some? ==> exists i :: 0 <= i < n && BindingKill(db, db.events[i], id) && db.events[i].at == k.value
  {
    if n == 0 then None
    else
      var rest, last := NewestKill(db, id, n - 1), db.events[n - 1];
      if BindingKill(db, last, id) then MaxOpt(rest, last.at) else rest
  }

  // ----- The definition -----

  /** The newest paused row before row i was entered from killed. */
  predicate PausedFromKilled(rows: seq<Transition>, i: nat)
    requires i <= |rows|
  {
    exists j :: 0 <= j < i && rows[j].to.Paused? && rows[j].from.Killed? && NoPauseBetween(rows, j, i)
  }

  predicate NoPauseBetween(rows: seq<Transition>, j: nat, i: nat)
    requires j < i <= |rows|
  {
    forall m :: j < m < i ==> !rows[m].to.Paused?
  }

  /** Which paper rows qualify, by recursion on the earlier rows. */
  predicate Qualifies(rows: seq<Transition>, kill: Option<int>, i: nat)
    requires i < |rows|
    decreases i, 1
  {
    && rows[i].to.Paper?
    && (|| !rows[i].from.Paused?
        || PausedFromKilled(rows, i)
        || (kill.Some? && !QualifiedSince(rows, kill, i)))
  }

  /** Some qualifying row before row i is not before the kill. */
  predicate QualifiedSince(rows: seq<Transition>, kill: Option<int>, i: nat)
    requires i <= |rows| && kill.Some?
    decreases i, 0
  {
    exists j :: 0 <= j < i && rows[j].at >= kill.value && Qualifies(rows, kill, j)
  }

  /** The gate's answer: the newest qualifying row's time, unless a kill has no qualifying row since. */
  ghost predicate IsWindowStart(rows: seq<Transition>, kill: Option<int>, start: Option<int>) {
    match start
    case None =>
      || (forall i :: 0 <= i < |rows| ==> !Qualifies(rows, kill, i))
      || (kill.Some? && !QualifiedSince(rows, kill, |rows|))
    case Some(at) =>
      && (exists i :: NewestQualifying(rows, kill, i) && rows[i].at == at)
      && (kill.Some? ==> QualifiedSince(rows, kill, |rows|))
  }

  ghost predicate NewestQualifying(rows: seq<Transition>, kill: Option<int>, i: int) {
    0 <= i < |rows| && Qualifies(rows, kill, i) && forall j :: i < j < |rows| ==> !Qualifies(rows, kill, j)
  }

  // ----- The one-pass scan -----

  /** What the scan knows after n rows. */
  ghost predicate Scanned(rows: seq<Transition>, kill: Option<int>, n: nat, start: Option<int>,
                          since: bool, pausedFrom: Option<State>)
    requires n <= |rows|
  {
    && (since <==> kill.Some? && QualifiedSince(rows, kill, n))
    && (pausedFrom == Some(Killed) <==> PausedFromKilled(rows, n))
    && (start.None? ==> forall j :: 0 <= j < n ==> !Qualifies(rows, kill, j))
    && (start.Some? ==> exists i :: 0 <= i < n && Qualifies(rows, kill, i) && rows[i].at == start.value
                                    && forall j :: i < j < n ==> !Qualifies(rows, kill, j))
  }

  lemma PausedFromStep(rows: seq<Transition>, n: nat)
    requires n < |rows|
    ensures PausedFromKilled(rows, n + 1)
            <==> if rows[n].to.Paused? then rows[n].from.Killed? else PausedFromKilled(rows, n)
  {
    if PausedFromKilled(rows, n + 1) {
      var j :| 0 <= j < n + 1 && rows[j].to.Paused? && rows[j].from.Killed? && NoPauseBetween(rows, j, n + 1);
      assert j == n || NoPauseBetween(rows, j, n);
    }
    if rows[n].to.Paused? {
      assert NoPauseBetween(rows, n, n + 1);
    } else if PausedFromKilled(rows, n) {
      var j :| 0 <= j < n && rows[j].to.Paused? && rows[j].from.Killed? && NoPauseBetween(rows, j, n);
      assert NoPauseBetween(rows, j, n + 1);
    }
  }

  lemma SinceStep(rows: seq<Transition>, kill: Option<int>, n: nat)
    requires n < |rows| && kill.Some?
    ensures QualifiedSince(rows, kill, n + 1)
            <==> QualifiedSince(rows, kill, n) || (Qualifies(rows, kill, n) && rows[n].at >= kill.value)
  {
  }

  method PaperWindowStart(db: Db, id: string) returns (window: Option<int>)
    ensures IsWindowStart(WindowRows(db, id), NewestKill(db, id, |db.events|), window)
  {
    var kill := NewestKill(db, id, |db.events|);
    var rows := WindowRows(db, id);
    var start: Option<int>, anyQualSinceK, lastPausedFrom: Option<State> := None, false, None;
    var n := 0;
    OnlyListed(db, id);
    while n < |rows|
      invariant 0 <= n <= |rows|
      invariant Scanned(rows, kill, n, start, anyQualSinceK, lastPausedFrom)
    {
      var row := rows[n];
      PausedFromStep(rows, n);
      if kill.Some? {
        SinceStep(rows, kill, n);
      }
      if row.to.Paused? {
        lastPausedFrom := Some(row.from);
      } else if !row.from.Paused? || lastPausedFrom == Some(Killed) || (kill.Some? && !anyQualSinceK) {
        start := Some(row.at);
        if kill.Some? && row.at >= kill.value {
          anyQualSinceK := true;
        }
      }
      n := n + 1;
    }
    window := if start.None? || (kill.Some? && !anyQualSinceK) then None else start;
  }

  lemma OnlyListed(db: Db, id: string)
    ensures forall i :: 0 <= i < |WindowRows(db, id)| ==> Listed(WindowRows(db, id)[i], id)
  {
    var rows, own := WindowRows(db, id), Own(db.transitions, id);
    SameRows(own, Time);
    forall i | 0 <= i < |rows|
      ensures Listed(rows[i], id)
    {
      assert rows[i] in multiset(rows);
      assert rows[i] in own;
    }
  }

  /** The scan reads exactly the strategy's rows into paper or a pause, as often as they are stored, by time. */
  lemma ScansItsRows(db: Db, id: string, t: Transition)
    ensures multiset(WindowRows(db, id))[t]
         == if t.strategy == id && (t.to == Paper || t.to == Paused) then multiset(db.transitions)[t] else 0
    ensures forall i, j :: 0 <= i < j < |WindowRows(db, id)| ==> WindowRows(db, id)[i].at <= WindowRows(db, id)[j].at
  {
    var own := Own(db.transitions, id);
    SameRows(own, Time);
    ComesOutOrdered(own, Time);
    FilterCounts(db.transitions, (x: Transition) => Listed(x, id), t);
    forall i, j | 0 <= i < j < |WindowRows(db, id)|
      ensures WindowRows(db, id)[i].at <= WindowRows(db, id)[j].at
    {
      assert Time(WindowRows(db, id)[i]) <= Time(WindowRows(db, id)[j]);
    }
  }

  /** The definition leaves one answer. */
  lemma WindowStartIsUnique(rows: seq<Transition>, kill: Option<int>, a: Option<int>, b: Option<int>)
    requires IsWindowStart(rows, kill, a) && IsWindowStart(rows, kill, b)
    ensures a == b
  {
    if a.Some? && b.Some? {
      var i :| NewestQualifying(rows, kill, i) && rows[i].at == a.value;
      var j :| NewestQualifying(rows, kill, j) && rows[j].at == b.value;
      assert i == j;
    }
  }

  // ----- What the window promises -----

  /** An open window never starts before a kill binding the strategy, cleared or not. */
  lemma StartIsNotBeforeAKill(db: Db, id: string, start: int, i: nat)
    requires IsWindowStart(WindowRows(db, id), NewestKill(db, id, |db.events|), Some(start))
    requires i < |db.events| && BindingKill(db, db.events[i], id)
    ensures db.events[i].at <= start
  {
    var rows, kill := WindowRows(db, id), NewestKill(db, id, |db.events|);
    ComesOutOrdered(Own(db.transitions, id), Time);
    var last :| NewestQualifying(rows, kill, last) && rows[last].at == start;
    assert QualifiedSince(rows, kill, |rows|);
    var j :| 0 <= j < |rows| && rows[j].at >= kill.value && Qualifies(rows, kill, j);
    assert Time(rows[j]) <= Time(rows[last]) by {
      assert j <= last;
    }
  }

  /** A row only looks back. */
  lemma {:induction false} QualifiesLooksBack(rows: seq<Transition>, more: seq<Transition>, kill: Option<int>, i: nat)
    requires i < |rows|
    ensures Qualifies(rows + more, kill, i) == Qualifies(rows, kill, i)
    decreases i
  {
    var all := rows + more;
    forall j | 0 <= j < i
      ensures Qualifies(all, kill, j) == Qualifies(rows, kill, j) && all[j] == rows[j]
    {
      QualifiesLooksBack(rows, more, kill, j);
    }
    assert PausedFromKilled(all, i) == PausedFromKilled(rows, i) by {
      PausedLooksBack(rows, more, i);
    }
  }

  lemma PausedLooksBack(rows: seq<Transition>, more: seq<Transition>, i: nat)
    requires i <= |rows|
    ensures PausedFromKilled(rows + more, i) == PausedFromKilled(rows, i)
  {
    var all := rows + more;
    if j :| 0 <= j < i && rows[j].to.Paused? && rows[j].from.Killed? && NoPauseBetween(rows, j, i) {
      assert all[j] == rows[j] && NoPauseBetween(all, j, i);
    }
    if j :| 0 <= j < i && all[j].to.Paused? && all[j].from.Killed? && NoPauseBetween(all, j, i) {
      assert all[j] == rows[j];
      forall m | j < m < i
        ensures !rows[m].to.Paused?
      {
        assert all[m] == rows[m];
      }
      assert NoPauseBetween(rows, j, i);
    }
  }

  lemma SinceLooksBack(rows: seq<Transition>, more: seq<Transition>, kill: Option<int>, i: nat)
    requires i <= |rows| && kill.Some?
    ensures QualifiedSince(rows + more, kill, i) == QualifiedSince(rows, kill, i)
  {
    forall j | 0 <= j < i
      ensures Qualifies(rows + more, kill, j) == Qualifies(rows, kill, j) && (rows + more)[j] == rows[j]
    {
      QualifiesLooksBack(rows, more, kill, j);
    }
  }

  /** Appended rows that do not qualify leave the answer as it was. */
  lemma UnqualifiedRowsKeepTheStart(rows: seq<Transition>, more: seq<Transition>, kill: Option<int>, start: int)
    requires IsWindowStart(rows, kill, Some(start))
    requires forall i :: |rows| <= i < |rows + more| ==> !Qualifies(rows + more, kill, i)
    ensures IsWindowStart(rows + more, kill, Some(start))
  {
    var all := rows + more;
    var last :| NewestQualifying(rows, kill, last) && rows[last].at == start;
    forall j | 0 <= j < |rows|
      ensures Qualifies(all, kill, j) == Qualifies(rows, kill, j) && all[j] == rows[j]
    {
      QualifiesLooksBack(rows, more, kill, j);
    }
    assert NewestQualifying(all, kill, last) && all[last].at == start;
  }

  predicate RoundTrip(id: string, out: Transition, back: Transition) {
    && out.strategy == back.strategy == id
    && out.from.Paper? && out.to.Paused? && back.from.Paused? && back.to.Paper?
  }

  lemma RoundTripDoesNotQualify(rows: seq<Transition>, kill: Option<int>, id: string, out: Transition, back: Transition)
    requires RoundTrip(id, out, back)
    requires kill.Some? ==> QualifiedSince(rows, kill, |rows|)
    ensures var all := rows + [out, back];
            !Qualifies(all, kill, |rows|) && !Qualifies(all, kill, |rows| + 1)
  {
    var all, n := rows + [out, back], |rows|;
    assert all[n] == out && all[n + 1] == back;
    PausedFromStep(all, n);
    if kill.Some? {
      SinceLooksBack(rows, [out, back], kill, n);
      SinceStep(all, kill, n);
    }
  }

  ghost predicate RoundTrips(id: string, rows: seq<Transition>) {
    |rows| % 2 == 0 && forall i :: 0 <= i < |rows| / 2 ==> RoundTrip(id, rows[2 * i], rows[2 * i + 1])
  }

  lemma OneTripKeepsTheStart(rows: seq<Transition>, kill: Option<int>, id: string, start: int,
                             out: Transition, back: Transition)
    requires RoundTrip(id, out, back) && IsWindowStart(rows, kill, Some(start))
    ensures IsWindowStart(rows + [out, back], kill, Some(start))
  {
    var all, n := rows + [out, back], |rows|;
    RoundTripDoesNotQualify(rows, kill, id, out, back);
    forall i | n <= i < |all|
      ensures !Qualifies(all, kill, i)
    {
      assert i == n || i == n + 1;
    }
    UnqualifiedRowsKeepTheStart(rows, [out, back], kill, start);
  }

  lemma {:induction false} TripsKeepTheStart(rows: seq<Transition>, more: seq<Transition>, kill: Option<int>,
                                             id: string, start: int)
    requires RoundTrips(id, more) && IsWindowStart(rows, kill, Some(start))
    ensures IsWindowStart(rows + more, kill, Some(start))
    decreases |more|
  {
    if more == [] {
      assert rows + more == rows;
    } else {
      var m := |more| - 2;
      var out, back := more[m], more[m + 1];
      assert RoundTrip(id, more[2 * (m / 2)], more[2 * (m / 2) + 1]);
      TripsKeepTheStart(rows, more[..m], kill, id, start);
      OneTripKeepsTheStart(rows + more[..m], kill, id, start, out, back);
      assert rows + more == rows + more[..m] + [out, back];
    }
  }

  /** The strategy's own later rows, with whatever rows of other strategies between them. */
  ghost predicate Appended(db: Db, db': Db, id: string, more: seq<Transition>) {
    && Own(db'.transitions, id) == Own(db.transitions, id) + more
    && Ordered(more, Time)
    && NotBefore(more, Own(db.transitions, id), Time)
  }

  /**
   Pausing and resuming from paper, any number of times and without a new kill,
   never moves an open window.
   */
  lemma RoundTripsKeepTheWindow(db: Db, db': Db, id: string, start: int, more: seq<Transition>)
    requires IsWindowStart(WindowRows(db, id), NewestKill(db, id, |db.events|), Some(start))
    requires Appended(db, db', id, more) && RoundTrips(id, more)
    requires NewestKill(db', id, |db'.events|) == NewestKill(db, id, |db.events|)
    ensures IsWindowStart(WindowRows(db', id), NewestKill(db', id, |db'.events|), Some(start))
  {
    LaterRowsGoLast(Own(db.transitions, id), more, Time);
    TripsKeepTheStart(WindowRows(db, id), more, NewestKill(db, id, |db.events|), id, start);
  }

  /** A refusal for an unanswered kill ends with the first resume into paper after it. */
  lemma ReentryReopensTheWindow(rows: seq<Transition>, kill: int, id: string, out: Transition, back: Transition)
    requires RoundTrip(id, out, back) && back.at >= kill
    requires !QualifiedSince(rows, Some(kill), |rows|)
    ensures IsWindowStart(rows, Some(kill), None)
    ensures IsWindowStart(rows + [out, back], Some(kill), Some(back.at))
  {
    var all, n := rows + [out, back], |rows|;
    assert all[n] == out && all[n + 1] == back;
    SinceLooksBack(rows, [out, back], Some(kill), n);
    SinceStep(all, Some(kill), n);
    SinceStep(all, Some(kill), n + 1);
    assert NewestQualifying(all, Some(kill), n + 1);
  }

  /** Entering paper from anywhere but a pause opens the window at that row, unless a kill is newer. */
  lemma EntryOpensTheWindow(rows: seq<Transition>, kill: Option<int>, entry: Transition)
    requires entry.to == Paper && entry.from != Paused && (kill.Some? ==> entry.at >= kill.value)
    ensures IsWindowStart(rows + [entry], kill, Some(entry.at))
  {
    var all, n := rows + [entry], |rows|;
    assert all[n] == entry;
    if kill.Some? {
      SinceStep(all, kill, n);
    }
    assert NewestQualifying(all, kill, n);
  }

  /** Resuming from a pause that was entered from killed opens it too: the unlock starts a new window. */
  lemma UnlockOpensTheWindow(rows: seq<Transition>, kill: Option<int>, unlock: Transition, back: Transition)
    requires unlock.from == Killed && unlock.to == Paused && back.from == Paused && back.to == Paper
    requires kill.Some? ==> back.at >= kill.value
    ensures IsWindowStart(rows + [unlock, back], kill, Some(back.at))
  {
    var all, n := rows + [unlock, back], |rows|;
    assert all[n] == unlock && all[n + 1] == back;
    PausedFromStep(all, n);
    if kill.Some? {
      SinceStep(all, kill, n + 1);
    }
    assert NewestQualifying(all, kill, n + 1);
  }

  /** A kill younger than every row closes the window. */
  lemma NewKillClosesTheWindow(rows: seq<Transition>, kill: int, window: Option<int>)
    requires forall i :: 0 <= i < |rows| ==> rows[i].at < kill
    requires IsWindowStart(rows, Some(kill), window)
    ensures window.None?
  {
    assert !QualifiedSince(rows, Some(kill), |rows|);
  }

  // ----- The fills inside the window -----

  /** A fill joined to its order. */
  datatype BookedFill = BookedFill(strategy: string, fill: PaperGate.Fill, ts: int)

  const FillTime: BookedFill -> int := (f: BookedFill) => f.ts

  predicate Since(f: BookedFill, id: string, since: int) {
    f.strategy == id && f.ts >= since
  }

  /** The replay's input: the strategy's fills since a time, in (fill_ts, rowid) order. */
  function ListPaperGateFills(fills: seq<BookedFill>, id: string, since: int): seq<BookedFill> {
    InTimeOrder(Filter(fills, (f: BookedFill) => Since(f, id, since)), FillTime)
  }

  /** The replay is given exactly the strategy's fills from a time on, as often as they are stored, by time. */
  lemma ReplaysItsFills(fills: seq<BookedFill>, id: string, since: int, f: BookedFill)
    ensures multiset(ListPaperGateFills(fills, id, since))[f]
         == if f.strategy == id && f.ts >= since then multiset(fills)[f] else 0
    ensures var listed := ListPaperGateFills(fills, id, since);
      forall i, j :: 0 <= i < j < |listed| ==> listed[i].ts <= listed[j].ts
  {
    var keep := (x: BookedFill) => Since(x, id, since);
    var listed := ListPaperGateFills(fills, id, since);
    SameRows(Filter(fills, keep), FillTime);
    ComesOutOrdered(Filter(fills, keep), FillTime);
    FilterCounts(fills, keep, f);
    forall i, j | 0 <= i < j < |listed|
      ensures listed[i].ts <= listed[j].ts
    {
      assert FillTime(listed[i]) <= FillTime(listed[j]);
    }
  }

  /** No fill the gate replays is older than a kill that binds the strategy. */
  lemma ReplayedFillsFollowEveryKill(db: Db, fills: seq<BookedFill>, id: string, start: int, f: BookedFill, i: nat)
    requires IsWindowStart(WindowRows(db, id), NewestKill(db, id, |db.events|), Some(start))
    requires f in ListPaperGateFills(fills, id, start)
    requires i < |db.events| && BindingKill(db, db.events[i], id)
    ensures f.strategy == id && f.ts >= db.events[i].at
  {
    var kept := Filter(fills, (x: BookedFill) => Since(x, id, start));
    SameRows(kept, FillTime);
    assert f in multiset(ListPaperGateFills(fills, id, start));
    assert f in kept;
    StartIsNotBeforeAKill(db, id, start, i);
  }

  // ----- Paused provenance -----

  /** The from state of the newest paused row; the later row wins a tie. */
  method PausedProvenance(db: Db, id: string) returns (from: Option<State>)
    ensures from == PausedFrom(db.transitions, id)
  {
    var newest: Option<nat> := None;
    var n := 0;
    while n < |db.transitions|
      invariant 0 <= n <= |db.transitions|
      invariant newest == NewestPauseAt(db.transitions[..n], id)
    {
      assert db.transitions[..n + 1][..n] == db.transitions[..n];
      if Pauses(db.transitions[n], id)
         && (newest.None? || db.transitions[newest.value].at <= db.transitions[n].at) {
        newest := Some(n);
      }
      n := n + 1;
    }
    assert db.transitions[..n] == db.transitions;
    from := if newest.None? then None else Some(db.transitions[newest.value].from);
  }

  /** None without a paused row; otherwise the from state of a row no other paused row of the strategy is newer than. */
  lemma ProvenanceExactly(rows: seq<Transition>, id: string)
    ensures PausedFrom(rows, id).None? <==> forall t :: t in rows ==> t.strategy != id || t.to != Paused
    ensures var from := PausedFrom(rows, id); from.Some? ==>
      exists i :: && 0 <= i < |rows| && rows[i].strategy == id && rows[i].to == Paused && rows[i].from == from.value
                  && forall j :: 0 <= j < |rows| && rows[j].strategy == id && rows[j].to == Paused ==>
                       rows[j].at < rows[i].at || (rows[j].at == rows[i].at && j <= i)
  {
    var i := NewestPauseAt(rows, id);
    if i.Some? {
      assert rows[i.value] in rows && Pauses(rows[i.value], id);
    } else {
      assert forall j :: 0 <= j < |rows| ==> !Pauses(rows[j], id);
    }
  }

  /** The last row of the strategy, if it has one. */
  ghost predicate LastOwn(rows: seq<Transition>, id: string, i: int) {
    0 <= i < |rows| && rows[i].strategy == id && forall j :: i < j < |rows| ==> rows[j].strategy != id
  }

  lemma {:induction false} FollowEndsAtTheLastRow(rows: seq<Transition>, id: string, i: int)
    requires LastOwn(rows, id, i) && Follow(rows, id).Some?
    ensures Follow(rows, id) == Some(rows[i].to)
  {
    var n := |rows| - 1;
    if i != n {
      assert rows[..n][i] == rows[i];
      FollowEndsAtTheLastRow(rows[..n], id, i);
    }
  }

  lemma NewestIsLast(rows: seq<Transition>, id: string, last: int, i: int)
    requires forall a, b :: 0 <= a < b < |rows| ==> rows[a].at <= rows[b].at
    requires LastOwn(rows, id, last) && rows[last].to.Paused?
    ensures NewestPause(rows, id, i) ==> i == last
    ensures NewestPauseAt(rows, id).Some?
  {
    assert Pauses(rows[last], id);
  }

  /**
   In every run whose clock does not step back, a paused strategy's provenance is
   its last audit row: the entry into the current pause.
   */
  lemma ProvenanceIsTheLastRow(ops: seq<Op>, id: string, last: int, i: int)
    requires var db := RunOf(ops).db;
      && id in db.strategies && db.strategies[id].state.Paused?
      && (forall a, b :: 0 <= a < b < |db.transitions| ==> db.transitions[a].at <= db.transitions[b].at)
      && LastOwn(db.transitions, id, last) && NewestPause(db.transitions, id, i)
    ensures i == last
    ensures var rows := RunOf(ops).db.transitions; PausedFrom(rows, id) == Some(rows[last].from)
  {
    var rows := RunOf(ops).db.transitions;
    AuditIsAPath(ops);
    FollowEndsAtTheLastRow(rows, id, last);
    NewestIsLast(rows, id, last, i);
    var newest := NewestPauseAt(rows, id);
    NewestIsLast(rows, id, last, newest.value);
  }
}
