/**
 The book half of a persisting transaction: deltas are differences of realized
 sums, and the snapshots follow from the history of their own writes.
 */
module BridgeEquity {
  import opened Wrappers
  import opened Decimals
  import opened MapSums
  import opened BridgeTables

  // ----- Realized sums -----

  ghost function Shares(positions: map<Key, Position>, s: string): map<Key, real> {
    map k | k in positions :: if k.strategy == s then positions[k].realized else 0.0
  }

  /** The strategy's stored realized PnL, summed over its books. */
  ghost function Realized(positions: map<Key, Position>, s: string): real {
    Total(Shares(positions, s))
  }

  lemma RealizedMoves(positions: map<Key, Position>, k: Key, p: Position, s: string)
    ensures Realized(positions[k := p], s)
         == Realized(positions, s) + if k.strategy == s then Delta(positions, k, p) else 0.0
  {
    var v := if k.strategy == s then p.realized else 0.0;
    assert Shares(positions[k := p], s) == Shares(positions, s)[k := v];
    TotalUpdate(Shares(positions, s), k, v);
  }

  /** What the book pass knows: prev are the stored positions it started from. */
  ghost predicate Passed(b: Books, prev: map<Key, Position>, touched: set<string>) {
    && prev + b.staged == b.positions
    && touched <= b.touched && b.deltas.Keys <= b.touched
    && Balanced(b.deltas, b.positions, prev)
  }

  ghost predicate Balanced(deltas: map<string, real>, positions: map<Key, Position>, prev: map<Key, Position>) {
    forall s :: GetOr(deltas, s, 0.0) == Realized(positions, s) - Realized(prev, s)
  }

  lemma DeltaBalances(deltas: map<string, real>, positions: map<Key, Position>, prev: map<Key, Position>,
                      k: Key, p: Position)
    requires Balanced(deltas, positions, prev)
    ensures Balanced(deltas[k.strategy := GetOr(deltas, k.strategy, 0.0) + Delta(positions, k, p)],
                     positions[k := p], prev)
  {
    var deltas' := deltas[k.strategy := GetOr(deltas, k.strategy, 0.0) + Delta(positions, k, p)];
    forall s
      ensures GetOr(deltas', s, 0.0) == Realized(positions[k := p], s) - Realized(prev, s)
    {
      RealizedMoves(positions, k, p, s);
    }
  }

  lemma NoDeltaBalances(deltas: map<string, real>, positions: map<Key, Position>, prev: map<Key, Position>,
                        k: Key, p: Position)
    requires Balanced(deltas, positions, prev) && Delta(positions, k, p) == 0.0
    ensures Balanced(deltas, positions[k := p], prev)
  {
    forall s
      ensures GetOr(deltas, s, 0.0) == Realized(positions[k := p], s) - Realized(prev, s)
    {
      RealizedMoves(positions, k, p, s);
    }
  }

  /** The book at k is still the stored one. */
  ghost predicate Untouched(b: Books, prev: map<Key, Position>, k: Key) {
    (k in b.positions <==> k in prev) && (k in prev ==> b.positions[k] == prev[k])
  }

  lemma ChangedBookBalances(b: Books, k: Key, p: Position, prev: map<Key, Position>)
    requires Balanced(b.deltas, b.positions, prev) && Untouched(b, prev, k) && !(k in prev && prev[k] == p)
    ensures var b' := BookStep(b, k, p, prev); Balanced(b'.deltas, b'.positions, prev)
  {
    var b' := BookStep(b, k, p, prev);
    assert Delta(b.positions, k, p) == Delta(prev, k, p) && b'.positions == b.positions[k := p];
    if Delta(prev, k, p) == 0.0 {
      assert b'.deltas == b.deltas;
      NoDeltaBalances(b.deltas, b.positions, prev, k, p);
    } else {
      DeltaBalances(b.deltas, b.positions, prev, k, p);
    }
  }

  lemma BookStepBalances(b: Books, k: Key, p: Position, prev: map<Key, Position>)
    requires Balanced(b.deltas, b.positions, prev) && Untouched(b, prev, k)
    ensures var b' := BookStep(b, k, p, prev); Balanced(b'.deltas, b'.positions, prev)
  {
    if k in prev && prev[k] == p {
      assert BookStep(b, k, p, prev) == b;
    } else {
      ChangedBookBalances(b, k, p, prev);
    }
  }

  lemma BookStepStages(b: Books, k: Key, p: Position, prev: map<Key, Position>, touched: set<string>)
    requires prev + b.staged == b.positions && touched <= b.touched && b.deltas.Keys <= b.touched
    requires Untouched(b, prev, k)
    ensures var b' := BookStep(b, k, p, prev);
      && prev + b'.staged == b'.positions && touched <= b'.touched && b'.deltas.Keys <= b'.touched
      && b'.positions == b.positions[k := p]
  {
    if k in prev && prev[k] == p {
      assert b.positions[k := p] == b.positions;
    } else {
      assert prev + b.staged[k := p] == b.positions[k := p];
    }
  }

  /** The passed keys are at their new positions, the others as they were. */
  ghost predicate Carried(positions: map<Key, Position>, keys: seq<Key>, books: map<Key, Position>,
                          prev: map<Key, Position>)
    requires forall k :: k in keys ==> k in books
  {
    forall k :: CarriedAt(positions, keys, books, prev, k)
  }

  ghost predicate CarriedAt(positions: map<Key, Position>, keys: seq<Key>, books: map<Key, Position>,
                            prev: map<Key, Position>, k: Key)
    requires forall x :: x in keys ==> x in books
  {
    && (k in positions <==> k in prev || k in keys)
    && (k in positions ==> positions[k] == if k in keys then books[k] else prev[k])
  }

  lemma CarriedPush(positions: map<Key, Position>, before: seq<Key>, last: Key, books: map<Key, Position>,
                    prev: map<Key, Position>)
    requires last in books && (forall k :: k in before ==> k in books) && Carried(positions, before, books, prev)
    ensures Carried(positions[last := books[last]], before + [last], books, prev)
  {
    var carried, keys := positions[last := books[last]], before + [last];
    forall k
      ensures CarriedAt(carried, keys, books, prev, k)
    {
      assert CarriedAt(positions, before, books, prev, k);
    }
  }

  lemma {:induction false} BookAllPasses(b: Books, keys: seq<Key>, books: map<Key, Position>,
                                         prev: map<Key, Position>, touched: set<string>)
    requires forall k :: k in keys ==> k in books
    requires forall i, j :: 0 <= i < j < |keys| ==> keys[i] != keys[j]
    requires Passed(b, prev, touched) && b.positions == prev
    ensures Passed(BookAll(b, keys, books, prev), prev, touched)
    ensures Carried(BookAll(b, keys, books, prev).positions, keys, books, prev)
  {
    if keys != [] {
      var before, last := keys[..|keys| - 1], keys[|keys| - 1];
      BookAllPasses(b, before, books, prev, touched);
      assert keys == before + [last] && last !in before;
      var mid := BookAll(b, before, books, prev);
      assert CarriedAt(mid.positions, before, books, prev, last);
      BookStepBalances(mid, last, books[last], prev);
      BookStepStages(mid, last, books[last], prev, touched);
      CarriedPush(mid.positions, before, last, books, prev);
    }
  }

  lemma SameEntries(a: map<Key, Position>, b: map<Key, Position>)
    requires a.Keys == b.Keys && forall k :: k in a ==> a[k] == b[k]
    ensures a == b
  {
  }

  lemma NothingPassed(prev: map<Key, Position>, touched: set<string>)
    ensures Passed(Books(prev, map[], map[], touched), prev, touched)
  {
    assert prev + map[] == prev;
  }

  /** A full pass over books that dropped nothing brings the positions to them. */
  lemma BookAllReaches(prev: map<Key, Position>, books: map<Key, Position>, keys: seq<Key>, touched: set<string>)
    requires prev.Keys <= books.Keys && forall k :: k in keys <==> k in books
    requires forall i, j :: 0 <= i < j < |keys| ==> keys[i] != keys[j]
    ensures var b := BookAll(Books(prev, map[], map[], touched), keys, books, prev);
      b.positions == books && Passed(b, prev, touched)
  {
    var b0 := Books(prev, map[], map[], touched);
    NothingPassed(prev, touched);
    BookAllPasses(b0, keys, books, prev, touched);
    var positions := BookAll(b0, keys, books, prev).positions;
    forall k
      ensures (k in positions <==> k in books) && (k in positions ==> positions[k] == books[k])
    {
      assert CarriedAt(positions, keys, books, prev, k);
    }
    SameEntries(positions, books);
  }

  // ----- The history of realized-equity writes -----

  /** A strategy's own writes. */
  function LogOf(writes: seq<Write>, s: string): seq<Write> {
    if writes == [] then []
    else
      var rest, last := LogOf(writes[..|writes| - 1], s), writes[|writes| - 1];
      if last.strategy == s then rest + [last] else rest
  }

  lemma LogPush(writes: seq<Write>, x: Write, s: string)
    ensures LogOf(writes + [x], s) == if x.strategy == s then LogOf(writes, s) + [x] else LogOf(writes, s)
  {
    assert (writes + [x])[..|writes|] == writes;
  }

  lemma SplitLast(a: seq<Write>, b: seq<Write>)
    requires b != []
    ensures a + b == a + b[..|b| - 1] + [b[|b| - 1]] && b == b[..|b| - 1] + [b[|b| - 1]]
  {
  }

  lemma Associates(a: seq<Write>, b: seq<Write>, x: Write)
    ensures a + b + [x] == a + (b + [x])
  {
  }

  lemma {:induction false} LogJoins(a: seq<Write>, b: seq<Write>, s: string)
    ensures LogOf(a + b, s) == LogOf(a, s) + LogOf(b, s)
  {
    if b == [] {
      assert a + b == a && LogOf(a, s) + [] == LogOf(a, s);
    } else {
      var before, last := b[..|b| - 1], b[|b| - 1];
      LogJoins(a, before, s);
      SplitLast(a, b);
      LogPush(a + before, last, s);
      LogPush(before, last, s);
      Associates(LogOf(a, s), LogOf(before, s), last);
    }
  }

  ghost function SumDeltas(log: seq<Write>): real {
    if log == [] then 0.0 else SumDeltas(log[..|log| - 1]) + log[|log| - 1].delta
  }

  /** Two times of commit lie on one UTC day: seconds since the epoch, by whole days. */
  predicate SameDay(a: int, b: int) {
    a / 86400 == b / 86400
  }

  /** Deltas of the last day, back to the last write at a time of another day. */
  ghost function DaySum(log: seq<Write>): real
    requires log != []
  {
    var n := |log| - 1;
    log[n].delta + if n > 0 && SameDay(log[n - 1].at, log[n].at) then DaySum(log[..n]) else 0.0
  }

  /** The largest of the seed and all written equities. */
  ghost predicate IsPeak(peak: real, capital: real, log: seq<Write>) {
    && peak >= capital && (forall i :: 0 <= i < |log| ==> log[i].equity <= peak)
    && (peak == capital || exists i :: 0 <= i < |log| && log[i].equity == peak)
  }

  /** A snapshot row as its history determines it. */
  ghost predicate Explained(row: Option<StateRow>, capital: real, log: seq<Write>) {
    if row.None? then log == []
    else
      && log != []
      && row.value.equity == capital + SumDeltas(log) == log[|log| - 1].equity
      && IsPeak(row.value.peak, capital, log)
      && row.value.daily == DaySum(log) && row.value.day == log[|log| - 1].at / 86400
  }

  lemma PeakAdvances(peak: real, capital: real, log: seq<Write>, x: Write)
    requires IsPeak(peak, capital, log)
    ensures IsPeak(Max(peak, x.equity), capital, log + [x])
  {
    var all := log + [x];
    assert all[|log|] == x;
    if Max(peak, x.equity) == peak && peak != capital {
      var i :| 0 <= i < |log| && log[i].equity == peak;
      assert all[i].equity == peak;
    }
  }

  lemma AdvanceIsExplained(row: Option<StateRow>, capital: real, log: seq<Write>, s: string, delta: real, at: int)
    requires Explained(row, capital, log)
    ensures var row' := Advance(row, capital, delta, at);
      Explained(Some(row'), capital, log + [Write(s, delta, row'.equity, at)])
  {
    var row' := Advance(row, capital, delta, at);
    var x := Write(s, delta, row'.equity, at);
    PeakAdvances(if row.Some? then row.value.peak else capital, capital, log, x);
    assert (log + [x])[..|log|] == log;
  }

  /** What one strategy's snapshot and history are. */
  datatype Track = Track(row: Option<StateRow>, log: seq<Write>)

  function TrackOf(x: Snapshots, s: string): Track {
    Track(RowAt(x.rows, s), LogOf(x.writes, s))
  }

  function Written(t: Track, s: string, capital: real, delta: real, at: int): Track {
    var row := Advance(t.row, capital, delta, at);
    Track(Some(row), t.log + [Write(s, delta, row.equity, at)])
  }

  lemma WriteIsLocal(x: Snapshots, id: string, capital: real, delta: real, at: int, s: string)
    ensures TrackOf(WriteState(x, id, capital, delta, at), s)
         == if s == id then Written(TrackOf(x, s), s, capital, delta, at) else TrackOf(x, s)
  {
    var row := Advance(RowAt(x.rows, id), capital, delta, at);
    LogPush(x.writes, Write(id, delta, row.equity, at), s);
  }

  /** The snapshots pass writes each touched strategy once. */
  lemma {:induction false} WriteAllIsPointwise(x: Snapshots, ids: seq<string>, capital: real,
                                               deltas: map<string, real>, at: int, s: string)
    requires forall i, j :: 0 <= i < j < |ids| ==> ids[i] != ids[j]
    ensures TrackOf(WriteAll(x, ids, capital, deltas, at), s)
         == if s in ids then Written(TrackOf(x, s), s, capital, GetOr(deltas, s, 0.0), at) else TrackOf(x, s)
  {
    if ids != [] {
      var before, last := ids[..|ids| - 1], ids[|ids| - 1];
      WriteAllIsPointwise(x, before, capital, deltas, at, s);
      assert ids == before + [last] && last !in before;
      WriteIsLocal(WriteAll(x, before, capital, deltas, at), last, capital, GetOr(deltas, last, 0.0), at, s);
    }
  }
}
