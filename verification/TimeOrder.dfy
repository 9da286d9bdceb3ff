/**
 ORDER BY (timestamp, rowid): a stable sort of table rows on an integer time.
 */
module TimeOrder {
  ghost predicate Ordered<T>(rows: seq<T>, time: T -> int) {
    forall i, j :: 0 <= i < j < |rows| ==> time(rows[i]) <= time(rows[j])
  }

  /** Puts a later row behind every row that is not younger. */
  function Insert<T>(rows: seq<T>, x: T, time: T -> int): seq<T> {
    if rows == [] || time(rows[|rows| - 1]) <= time(x) then
      rows + [x]
    else
      Insert(rows[..|rows| - 1], x, time) + [rows[|rows| - 1]]
  }

  function InTimeOrder<T>(rows: seq<T>, time: T -> int): seq<T> {
    if rows == [] then []
    else Insert(InTimeOrder(rows[..|rows| - 1], time), rows[|rows| - 1], time)
  }

  lemma {:induction false} InsertKeepsRows<T>(rows: seq<T>, x: T, time: T -> int)
    ensures multiset(Insert(rows, x, time)) == multiset(rows) + multiset{x}
  {
    if rows != [] && time(rows[|rows| - 1]) > time(x) {
      InsertKeepsRows(rows[..|rows| - 1], x, time);
      assert rows == rows[..|rows| - 1] + [rows[|rows| - 1]];
    }
  }

  /** Ordering loses and adds no row. */
  lemma {:induction false} SameRows<T>(rows: seq<T>, time: T -> int)
    ensures multiset(InTimeOrder(rows, time)) == multiset(rows)
  {
    if rows != [] {
      SameRows(rows[..|rows| - 1], time);
      InsertKeepsRows(InTimeOrder(rows[..|rows| - 1], time), rows[|rows| - 1], time);
      assert rows == rows[..|rows| - 1] + [rows[|rows| - 1]];
    }
  }

  function Filter<T(!new)>(rows: seq<T>, keep: T -> bool): (r: seq<T>)
    ensures forall x :: x in r <==> x in rows && keep(x)
  {
    if rows == [] then []
    else
      var rest, last := Filter(rows[..|rows| - 1], keep), rows[|rows| - 1];
      if keep(last) then rest + [last] else rest
  }

  lemma FilterPush<T(!new)>(rows: seq<T>, x: T, keep: T -> bool)
    ensures Filter(rows + [x], keep) == if keep(x) then Filter(rows, keep) + [x] else Filter(rows, keep)
  {
    assert (rows + [x])[..|rows|] == rows;
  }

  /** A filter keeps all copies of a row or none. */
  lemma {:induction false} FilterCounts<T(!new)>(rows: seq<T>, keep: T -> bool, x: T)
    ensures multiset(Filter(rows, keep))[x] == if keep(x) then multiset(rows)[x] else 0
  {
    if rows != [] {
      FilterCounts(rows[..|rows| - 1], keep, x);
      assert rows == rows[..|rows| - 1] + [rows[|rows| - 1]];
    }
  }

  ghost predicate NotAfter<T>(rows: seq<T>, t: int, time: T -> int) {
    forall i :: 0 <= i < |rows| ==> time(rows[i]) <= t
  }

  lemma OrderedPush<T>(rows: seq<T>, x: T, time: T -> int)
    requires Ordered(rows, time) && NotAfter(rows, time(x), time)
    ensures Ordered(rows + [x], time)
  {
  }

  lemma {:induction false} InsertKeepsOrder<T>(rows: seq<T>, x: T, time: T -> int, t: int)
    requires Ordered(rows, time)
    ensures Ordered(Insert(rows, x, time), time)
    ensures NotAfter(rows, t, time) && time(x) <= t ==> NotAfter(Insert(rows, x, time), t, time)
  {
    if rows != [] {
      var before, last := rows[..|rows| - 1], rows[|rows| - 1];
      if time(last) > time(x) {
        InsertKeepsOrder(before, x, time, time(last));
        OrderedPush(Insert(before, x, time), last, time);
        if NotAfter(rows, t, time) {
          InsertKeepsOrder(before, x, time, t);
        }
      } else {
        OrderedPush(rows, x, time);
      }
    }
  }

  /** The rows come out ordered by time. */
  lemma {:induction false} ComesOutOrdered<T>(rows: seq<T>, time: T -> int)
    ensures Ordered(InTimeOrder(rows, time), time)
  {
    if rows != [] {
      ComesOutOrdered(rows[..|rows| - 1], time);
      InsertKeepsOrder(InTimeOrder(rows[..|rows| - 1], time), rows[|rows| - 1], time, 0);
    }
  }

  ghost predicate OneTime<T(!new)>(keep: T -> bool, time: T -> int) {
    forall x, y :: keep(x) && keep(y) ==> time(x) == time(y)
  }

  lemma {:induction false} InsertIsStable<T(!new)>(rows: seq<T>, x: T, time: T -> int, keep: T -> bool)
    requires Ordered(rows, time) && OneTime(keep, time)
    ensures Filter(Insert(rows, x, time), keep) == Filter(rows, keep) + (if keep(x) then [x] else [])
  {
    if rows == [] || time(rows[|rows| - 1]) <= time(x) {
      FilterPush(rows, x, keep);
    } else {
      var before, last := rows[..|rows| - 1], rows[|rows| - 1];
      InsertIsStable(before, x, time, keep);
      FilterPush(Insert(before, x, time), last, keep);
    }
  }

  /** Rows of one timestamp keep their row order. */
  lemma {:induction false} TiesKeepRowOrder<T(!new)>(rows: seq<T>, time: T -> int, keep: T -> bool)
    requires OneTime(keep, time)
    ensures Filter(InTimeOrder(rows, time), keep) == Filter(rows, keep)
  {
    if rows != [] {
      TiesKeepRowOrder(rows[..|rows| - 1], time, keep);
      ComesOutOrdered(rows[..|rows| - 1], time);
      InsertIsStable(InTimeOrder(rows[..|rows| - 1], time), rows[|rows| - 1], time, keep);
    }
  }

  /** A row that is not younger than any other goes last. */
  lemma YoungestGoesLast<T>(rows: seq<T>, x: T, time: T -> int)
    requires NotAfter(rows, time(x), time)
    ensures InTimeOrder(rows + [x], time) == InTimeOrder(rows, time) + [x]
  {
    assert (rows + [x])[..|rows|] == rows;
    var sorted := InTimeOrder(rows, time);
    SameRows(rows, time);
    if sorted != [] {
      assert sorted[|sorted| - 1] in multiset(sorted);
    }
  }

  /** A log already in order is read as it stands. */
  lemma {:induction false} OrderedStays<T>(rows: seq<T>, time: T -> int)
    requires Ordered(rows, time)
    ensures InTimeOrder(rows, time) == rows
  {
    if rows != [] {
      OrderedStays(rows[..|rows| - 1], time);
    }
  }

  ghost predicate NotBefore<T>(more: seq<T>, rows: seq<T>, time: T -> int) {
    forall i :: 0 <= i < |more| ==> NotAfter(rows, time(more[i]), time)
  }

  lemma NotAfterJoins<T>(rows: seq<T>, more: seq<T>, t: int, time: T -> int)
    requires NotAfter(rows, t, time) && NotAfter(more, t, time)
    ensures NotAfter(rows + more, t, time)
  {
  }

  lemma OrderedPrefix<T>(more: seq<T>, rows: seq<T>, time: T -> int)
    requires more != [] && Ordered(more, time) && NotBefore(more, rows, time)
    ensures var before, last := more[..|more| - 1], more[|more| - 1];
      && Ordered(before, time) && NotBefore(before, rows, time)
      && NotAfter(before, time(last), time) && NotAfter(rows, time(last), time)
  {
  }

  lemma SplitLast<T>(rows: seq<T>, more: seq<T>)
    requires more != []
    ensures rows + more == rows + more[..|more| - 1] + [more[|more| - 1]]
  {
  }

  /** Later rows, in order themselves, go last as they stand. */
  lemma {:induction false} LaterRowsGoLast<T>(rows: seq<T>, more: seq<T>, time: T -> int)
    requires Ordered(more, time) && NotBefore(more, rows, time)
    ensures InTimeOrder(rows + more, time) == InTimeOrder(rows, time) + more
  {
    if more == [] {
      assert rows + more == rows && InTimeOrder(rows, time) + more == InTimeOrder(rows, time);
    } else {
      var before, last := more[..|more| - 1], more[|more| - 1];
      OrderedPrefix(more, rows, time);
      LaterRowsGoLast(rows, before, time);
      NotAfterJoins(rows, before, time(last), time);
      YoungestGoesLast(rows + before, last, time);
      SplitLast(rows, more);
      SplitLast(InTimeOrder(rows, time), more);
    }
  }
}
