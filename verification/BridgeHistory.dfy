/**
 What a run of the bridge leaves behind, over the run's own steps: the daily figure as
 the profit of the UTC day, and the times, quantities and prices of orders and fills.
 */
module BridgeHistory {
  import opened Wrappers
  import opened MapSums
  import opened Sorting
  import opened BridgeTables
  import opened BridgeOrders
  import opened BridgeEquity
  import opened BridgeRuns

  // ----- The daily figure -----

  /** What the strategy realized in the transactions of one UTC day. */
  ghost function ProfitOf(capital: real, steps: seq<Step>, s: string, day: int): real {
    if steps == [] then 0.0
    else
      var before, last := steps[..|steps| - 1], steps[|steps| - 1];
      ProfitOf(capital, before, s, day)
      + if last.PersistStep? && last.at / 86400 == day
        then Realized(RunOf(capital, steps).t.positions, s) - Realized(RunOf(capital, before).t.positions, s)
        else 0.0
  }

  /** No transaction lies on a later day. */
  ghost predicate UpTo(steps: seq<Step>, day: int) {
    forall i :: 0 <= i < |steps| && steps[i].PersistStep? ==> steps[i].at / 86400 <= day
  }

  ghost predicate DaysRise(steps: seq<Step>) {
    forall i, j :: 0 <= i < j < |steps| && steps[i].PersistStep? && steps[j].PersistStep? ==>
      steps[i].at / 86400 <= steps[j].at / 86400
  }

  /** The daily figure as it is read on a day: a row of another day counts as nothing. */
  function ReadOn(row: Option<StateRow>, day: int): real {
    if row.Some? && row.value.day == day then row.value.daily else 0.0
  }

  /** What one commit does to a strategy's row. */
  ghost predicate Moves(row: Option<StateRow>, row': Option<StateRow>, gain: real, day: int) {
    if row' == row then gain == 0.0
    else row'.Some? && row'.value.day == day && row'.value.daily == ReadOn(row, day) + gain
  }

  lemma AdvanceMoves(row: Option<StateRow>, capital: real, delta: real, at: int)
    ensures var row' := Some(Advance(row, capital, delta, at));
      row'.value.day == at / 86400 && row'.value.daily == ReadOn(row, at / 86400) + delta
  {
  }

  ghost predicate MovesBy(r: Run, r': Run, s: string, day: int) {
    Moves(RowAt(r.t.states, s), RowAt(r'.t.states, s), Realized(r'.t.positions, s) - Realized(r.t.positions, s), day)
  }

  lemma CommitMoves(r: Run, capital: real, proposal: Option<string>, at: int, s: string)
    requires Inv(r, capital) && Persist(r.t, r.m, r.oms, capital, proposal, at).Some?
    ensures MovesBy(r, Persisted(r, capital, proposal, at), s, at / 86400)
  {
    CommitOf(r, capital, proposal, at);
    var w := Orders(r.t, r.m, r.oms, proposal, at).value;
    StatusesStaged(r, proposal, at);
    var b := BooksOf(w.tables, r.m, r.oms, w.touched);
    BooksCommit(r, w, b);
    var delta := GetOr(b.deltas, s, 0.0);
    assert delta == Realized(b.positions, s) - Realized(r.t.positions, s);
    WriteAllIsPointwise(Snapshots(r.t.states, []), ById(b.touched), capital, b.deltas, at, s);
    AdvanceMoves(RowAt(r.t.states, s), capital, delta, at);
  }

  lemma StepMoves(r: Run, capital: real, step: Step, s: string)
    requires Inv(r, capital)
    ensures var r' := Next(r, capital, step);
      if step.PersistStep? then MovesBy(r, r', s, step.at / 86400) else r'.t == r.t
  {
    if step.PersistStep? && !step.fails && Persist(r.t, r.m, r.oms, capital, step.proposal, step.at).Some? {
      CommitMoves(r, capital, step.proposal, step.at, s);
    }
  }

  /** A stored day is the day of some transaction. */
  ghost predicate HasDay(steps: seq<Step>, day: int) {
    exists i :: 0 <= i < |steps| && steps[i].PersistStep? && steps[i].at / 86400 == day
  }

  lemma {:induction false} StoredDayIsACommits(capital: real, steps: seq<Step>, s: string)
    requires Possible(capital, steps)
    ensures var row := RowAt(RunOf(capital, steps).t.states, s); row.Some? ==> HasDay(steps, row.value.day)
  {
    if steps != [] {
      var before, last := steps[..|steps| - 1], steps[|steps| - 1];
      StoredDayIsACommits(capital, before, s);
      RunsKeepInv(capital, before);
      StepMoves(RunOf(capital, before), capital, last, s);
      HasDayOn(steps);
    }
  }

  lemma HasDayOn(steps: seq<Step>)
    requires steps != []
    ensures forall day :: HasDay(steps[..|steps| - 1], day) ==> HasDay(steps, day)
    ensures var last := steps[|steps| - 1]; last.PersistStep? ==> HasDay(steps, last.at / 86400)
  {
    var before := steps[..|steps| - 1];
    forall day | HasDay(before, day)
      ensures HasDay(steps, day)
    {
      var i :| 0 <= i < |before| && before[i].PersistStep? && before[i].at / 86400 == day;
      assert steps[i] == before[i];
    }
  }

  lemma DaysBefore(steps: seq<Step>, day: int)
    requires steps != [] && DaysRise(steps) && UpTo(steps, day)
    ensures var before, last := steps[..|steps| - 1], steps[|steps| - 1];
      && DaysRise(before) && UpTo(before, day)
      && (last.PersistStep? ==> last.at / 86400 <= day && UpTo(before, last.at / 86400))
  {
    var before := steps[..|steps| - 1];
    assert forall i :: 0 <= i < |before| ==> before[i] == steps[i];
  }

  /**
   In every run whose UTC days do not step back, the daily figure read on the last day or
   later is what the strategy realized in that day's transactions.
   */
  lemma {:induction false} DailyFigureIsTheDaysProfit(capital: real, steps: seq<Step>, s: string, day: int)
    requires Possible(capital, steps) && DaysRise(steps) && UpTo(steps, day)
    ensures ReadOn(RowAt(RunOf(capital, steps).t.states, s), day) == ProfitOf(capital, steps, s, day)
  {
    if steps != [] {
      var before, last := steps[..|steps| - 1], steps[|steps| - 1];
      DaysBefore(steps, day);
      DailyFigureIsTheDaysProfit(capital, before, s, day);
      RunsKeepInv(capital, before);
      StepMoves(RunOf(capital, before), capital, last, s);
      if last.PersistStep? && last.at / 86400 < day {
        StoredDayIsACommits(capital, before, s);
        var row := RowAt(RunOf(capital, before).t.states, s);
        assert row.Some? ==> row.value.day <= last.at / 86400;
      }
    }
  }

  // ----- Stamps -----

  predicate FilledAt(row: OrderRow, o: Order, at: int) {
    row.filledAt == Some(at) && row.price == Some(o.price)
  }

  /** An order the commit inserts: its row, and its fill row if it is filled. */
  ghost predicate NewlyStamped(v: View, v': View, id: string, o: Order, at: int) {
    && v.row.None? && v'.row.Some? && v'.row.value.qty == o.qty && v'.row.value.submittedAt == at
    && if o.status.Filled? then FilledAt(v'.row.value, o, at) && v'.fills == [FillRow(id, o.qty, o.price, o.fee, at)]
       else v'.row.value.filledAt.None? && v'.row.value.price.None? && v'.fills == []
  }

  /** An order already mirrored: stamped when it filled since, otherwise as it was. */
  ghost predicate SettledStamped(v: View, v': View, id: string, o: Order, prev: Status, at: int) {
    && v.row.Some? && v'.row.Some?
    && v'.row.value.qty == v.row.value.qty && v'.row.value.submittedAt == v.row.value.submittedAt
    && v'.row.value.proposal == v.row.value.proposal
    && if o.status.Filled? && !prev.Filled?
       then FilledAt(v'.row.value, o, at) && v'.fills == v.fills + [FillRow(id, o.qty, o.price, o.fee, at)]
       else v'.row.value.filledAt == v.row.value.filledAt && v'.row.value.price == v.row.value.price
            && v'.fills == v.fills
  }

  lemma SettledStamps(v: View, id: string, o: Order, prev: Status, at: int)
    requires v.row.Some?
    ensures SettledStamped(v, Settled(v, id, o, prev, at), id, o, prev, at)
  {
  }

  lemma InsertedStamps(v: View, id: string, o: Order, pid: string, at: int)
    requires v.row.None?
    ensures NewlyStamped(v, Inserted(id, o, pid, at), id, o, at)
  {
  }

  lemma SameTablesSameView(t: Tables, t': Tables, id: string)
    requires t.orders == t'.orders && t.fills == t'.fills
    ensures ViewOf(t, id) == ViewOf(t', id)
  {
  }

  lemma TransactionStamps(r: Run, proposal: Option<string>, at: int, id: string)
    requires OrderInv(r.t, r.m, r.oms, id) && Orders(r.t, r.m, r.oms, proposal, at).Some?
    ensures var v, v' := ViewOf(r.t, id), ViewOf(Orders(r.t, r.m, r.oms, proposal, at).value.tables, id);
      if id !in r.oms.orders then v' == v
      else if id in r.m.statuses then SettledStamped(v, v', id, r.oms.orders[id], r.m.statuses[id], at)
      else NewlyStamped(v, v', id, r.oms.orders[id], at)
  {
    PassedAt(r, proposal, at, id);
    var v := ViewOf(r.t, id);
    if id in r.oms.orders {
      var o := r.oms.orders[id];
      if id in r.m.statuses {
        SettledStamps(v, id, o, r.m.statuses[id], at);
      } else {
        InsertedStamps(v, id, o, Orders(r.t, r.m, r.oms, proposal, at).value.proposals[id], at);
      }
    }
  }

  /**
   After any run, a commit stamps exactly the orders it inserts and the fills it books
   with its own time, at the quantity, price and fee of the OMS, and touches no other.
   */
  lemma CommitStamps(capital: real, steps: seq<Step>, proposal: Option<string>, at: int, id: string)
    requires Possible(capital, steps)
    requires var r := RunOf(capital, steps); Persist(r.t, r.m, r.oms, capital, proposal, at).Some?
    ensures var r := RunOf(capital, steps);
      var v, v' := ViewOf(r.t, id), ViewOf(Persisted(r, capital, proposal, at).t, id);
      if id !in r.oms.orders then v' == v
      else if id in r.m.statuses then SettledStamped(v, v', id, r.oms.orders[id], r.m.statuses[id], at)
      else NewlyStamped(v, v', id, r.oms.orders[id], at)
  {
    var r := RunOf(capital, steps);
    RunsKeepInv(capital, steps);
    assert OrderInv(r.t, r.m, r.oms, id);
    CommitOf(r, capital, proposal, at);
    TransactionStamps(r, proposal, at, id);
    SameTablesSameView(Orders(r.t, r.m, r.oms, proposal, at).value.tables, Persisted(r, capital, proposal, at).t, id);
  }

  // ----- The order of fills -----

  /** The fills of the orders that filled now, mirrored or not, in the order of a list. */
  function FillsNowOf(ids: seq<string>, oms: Oms, m: Mirror, mirrored: bool, at: int): seq<FillRow>
    requires forall id :: id in ids ==> id in oms.orders
  {
    if ids == [] then []
    else
      var rest, id := FillsNowOf(ids[..|ids| - 1], oms, m, mirrored, at), ids[|ids| - 1];
      var o := oms.orders[id];
      if (id in m.statuses <==> mirrored) && FillsNow(oms, m, id)
      then rest + [FillRow(id, o.qty, o.price, o.fee, at)] else rest
  }

  lemma {:induction false} SettleAllBooks(w: Work, ids: seq<string>, oms: Oms, m: Mirror, at: int)
    requires (forall id :: id in ids ==> id in oms.orders) && SettleAll(w, ids, oms, m, at).Some?
    ensures SettleAll(w, ids, oms, m, at).value.tables.fills == w.tables.fills + FillsNowOf(ids, oms, m, true, at)
  {
    if ids != [] {
      SettleAllBooks(w, ids[..|ids| - 1], oms, m, at);
    }
  }

  lemma {:induction false} CreateAllBooks(w: Work, ids: seq<string>, oms: Oms, m: Mirror, proposal: Option<string>, at: int)
    requires (forall id :: id in ids ==> id in oms.orders) && CreateAll(w, ids, oms, m, proposal, at).Some?
    ensures CreateAll(w, ids, oms, m, proposal, at).value.tables.fills
         == w.tables.fills + FillsNowOf(ids, oms, m, false, at)
  {
    if ids != [] {
      CreateAllBooks(w, ids[..|ids| - 1], oms, m, proposal, at);
    }
  }

  /** A commit appends the fills of the mirrored orders and then those of the new ones, each by order id. */
  lemma FillsAreAppendedInOrder(r: Run, capital: real, proposal: Option<string>, at: int) returns (ids: seq<string>)
    requires Persist(r.t, r.m, r.oms, capital, proposal, at).Some?
    ensures forall id :: id in ids <==> id in r.oms.orders
    ensures forall i, j :: 0 <= i < j < |ids| ==> LexLe(ids[i], ids[j]) && ids[i] != ids[j]
    ensures Persisted(r, capital, proposal, at).t.fills
         == r.t.fills + FillsNowOf(ids, r.oms, r.m, true, at) + FillsNowOf(ids, r.oms, r.m, false, at)
  {
    ids := ById(r.oms.orders.Keys);
    CommitOf(r, capital, proposal, at);
    OrdersUnfold(r, proposal, at);
    var w0 := Work(r.t, map[], map[], {}, map[]);
    SettleAllBooks(w0, ids, r.oms, r.m, at);
    CreateAllBooks(SettleAll(w0, ids, r.oms, r.m, at).value, ids, r.oms, r.m, proposal, at);
  }

  // ----- Which snapshots a commit writes -----

  /** The order filled since it was mirrored. */
  predicate FillsNow(oms: Oms, m: Mirror, id: string) {
    id in oms.orders && oms.orders[id].status.Filled? && (id in m.statuses ==> !m.statuses[id].Filled?)
  }

  /** One of these orders, mirrored or not, filled now for the strategy. */
  ghost predicate SomeFill(ids: seq<string>, oms: Oms, m: Mirror, mirrored: bool, s: string) {
    exists id :: id in ids && (id in m.statuses <==> mirrored) && FillsNow(oms, m, id)
                 && oms.orders[id].terms.key.strategy == s
  }

  lemma SomeFillPush(before: seq<string>, last: string, oms: Oms, m: Mirror, mirrored: bool, s: string)
    ensures SomeFill(before + [last], oms, m, mirrored, s)
            <==> || SomeFill(before, oms, m, mirrored, s)
                 || ((last in m.statuses <==> mirrored) && FillsNow(oms, m, last)
                     && oms.orders[last].terms.key.strategy == s)
  {
    assert forall id :: id in before + [last] <==> id in before || id == last;
  }

  lemma {:induction false} SettleAllTouches(w: Work, ids: seq<string>, oms: Oms, m: Mirror, at: int, s: string)
    requires (forall id :: id in ids ==> id in oms.orders) && SettleAll(w, ids, oms, m, at).Some?
    ensures s in SettleAll(w, ids, oms, m, at).value.touched <==> s in w.touched || SomeFill(ids, oms, m, true, s)
  {
    if ids != [] {
      var before, last := ids[..|ids| - 1], ids[|ids| - 1];
      SettleAllTouches(w, before, oms, m, at, s);
      SomeFillPush(before, last, oms, m, true, s);
      assert ids == before + [last];
    }
  }

  lemma {:induction false} CreateAllTouches(w: Work, ids: seq<string>, oms: Oms, m: Mirror,
                                            proposal: Option<string>, at: int, s: string)
    requires (forall id :: id in ids ==> id in oms.orders) && CreateAll(w, ids, oms, m, proposal, at).Some?
    ensures s in CreateAll(w, ids, oms, m, proposal, at).value.touched
            <==> s in w.touched || SomeFill(ids, oms, m, false, s)
  {
    if ids != [] {
      var before, last := ids[..|ids| - 1], ids[|ids| - 1];
      CreateAllTouches(w, before, oms, m, proposal, at, s);
      SomeFillPush(before, last, oms, m, false, s);
      assert ids == before + [last];
    }
  }

  /** One of these books realized something for the strategy. */
  ghost predicate SomeProfit(keys: seq<Key>, books: map<Key, Position>, prev: map<Key, Position>, s: string) {
    exists k :: k in keys && Profits(books, prev, k) && k.strategy == s
  }

  predicate Profits(books: map<Key, Position>, prev: map<Key, Position>, k: Key) {
    k in books && books[k].realized != if k in prev then prev[k].realized else 0.0
  }

  lemma {:induction false} BookAllTouches(b: Books, keys: seq<Key>, books: map<Key, Position>,
                                          prev: map<Key, Position>, s: string)
    requires forall k :: k in keys ==> k in books
    ensures s in BookAll(b, keys, books, prev).touched <==> s in b.touched || SomeProfit(keys, books, prev, s)
  {
    if keys != [] {
      var before, last := keys[..|keys| - 1], keys[|keys| - 1];
      BookAllTouches(b, before, books, prev, s);
      assert keys == before + [last];
      assert forall k :: k in keys <==> k in before || k == last;
    }
  }

  lemma OrdersTouch(r: Run, proposal: Option<string>, at: int, s: string)
    requires Orders(r.t, r.m, r.oms, proposal, at).Some?
    ensures s in Orders(r.t, r.m, r.oms, proposal, at).value.touched
            <==> exists id :: FillsNow(r.oms, r.m, id) && r.oms.orders[id].terms.key.strategy == s
  {
    var ids, w0 := ById(r.oms.orders.Keys), Work(r.t, map[], map[], {}, map[]);
    OrdersUnfold(r, proposal, at);
    var w1 := SettleAll(w0, ids, r.oms, r.m, at).value;
    SettleAllTouches(w0, ids, r.oms, r.m, at, s);
    CreateAllTouches(w1, ids, r.oms, r.m, proposal, at, s);
    forall id | FillsNow(r.oms, r.m, id)
      ensures id in ids
    {
    }
  }

  /**
   A commit writes a strategy's snapshot exactly when an order of the strategy filled or
   one of its books realized something, and then once, at the commit's own time.
   */
  lemma WritesExactly(r: Run, capital: real, proposal: Option<string>, at: int, s: string)
    requires Persist(r.t, r.m, r.oms, capital, proposal, at).Some?
    ensures var was, now := LogOf(r.writes, s), LogOf(Persisted(r, capital, proposal, at).writes, s);
      if (exists id :: FillsNow(r.oms, r.m, id) && r.oms.orders[id].terms.key.strategy == s)
         || (exists k :: Profits(r.oms.books, r.m.books, k) && k.strategy == s)
      then |now| == |was| + 1 && now[..|was|] == was && now[|was|].at == at
      else now == was
  {
    CommitOf(r, capital, proposal, at);
    var w := Orders(r.t, r.m, r.oms, proposal, at).value;
    OrdersTouch(r, proposal, at, s);
    var keys := ByKey(r.oms.books.Keys);
    BookAllTouches(Books(w.tables.positions, map[], map[], w.touched), keys, r.oms.books, r.m.books, s);
    var b := BooksOf(w.tables, r.m, r.oms, w.touched);
    var x0 := Snapshots(w.tables.states, []);
    var x := WriteAll(x0, ById(b.touched), capital, b.deltas, at);
    WriteAllIsPointwise(x0, ById(b.touched), capital, b.deltas, at, s);
    LogJoins(r.writes, x.writes, s);
    forall k | Profits(r.oms.books, r.m.books, k)
      ensures k in keys
    {
    }
  }
}
