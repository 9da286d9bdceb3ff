/**
 Runs of the bridge: OMS actions, persisting transactions that commit or roll
 back, and restarts. The OMS is arbitrary but for three rules: it never drops an
 order or a book, an order keeps its terms, and a filled or canceled order is final.
 */
module BridgeRuns {
  import opened Wrappers
  import opened MapSums
  import opened BridgeTables
  import opened BridgeOrders
  import opened BridgeEquity

  datatype Run = Run(t: Tables, m: Mirror, oms: Oms, writes: seq<Write>)

  datatype Step =
    | Act(next: Oms)
    | PersistStep(proposal: Option<string>, at: int, fails: bool)
    | Restart

  const NO_ROWS := Tables(map[], [], map[], map[])

  predicate Final(a: Order, b: Order) {
    a.terms == b.terms && (a.status.Open? || a == b)
  }

  ghost predicate Evolves(a: Oms, b: Oms) {
    && a.books.Keys <= b.books.Keys
    && forall id :: id in a.orders ==> id in b.orders && Final(a.orders[id], b.orders[id])
  }

  /** The transaction, or the state as it was when it is rolled back or the store fails. */
  function Persisted(r: Run, capital: real, proposal: Option<string>, at: int): Run {
    var c := Persist(r.t, r.m, r.oms, capital, proposal, at);
    if c.None? then r else Run(c.value.tables, c.value.mirror, r.oms, r.writes + c.value.writes)
  }

  function Next(r: Run, capital: real, step: Step): Run {
    match step
    case Act(next) => r.(oms := next)
    case PersistStep(proposal, at, fails) => if fails then r else Persisted(r, capital, proposal, at)
    case Restart => Run(r.t, Hydrated(r.t), Rearmed(r.t), r.writes)
  }

  function RunOf(capital: real, steps: seq<Step>): Run {
    if steps == [] then Run(NO_ROWS, Hydrated(NO_ROWS), Rearmed(NO_ROWS), [])
    else Next(RunOf(capital, steps[..|steps| - 1]), capital, steps[|steps| - 1])
  }

  ghost predicate Possible(capital: real, steps: seq<Step>) {
    steps == [] ||
    (var before, last := steps[..|steps| - 1], steps[|steps| - 1];
     Possible(capital, before) && (last.Act? ==> Evolves(RunOf(capital, before).oms, last.next)))
  }

  // ----- Order invariant -----

  predicate Stores(column: Option<real>, price: real) {
    column == if price > 0.0 then Some(price) else None
  }

  /** A row keeps an order's terms; a non-positive price is stored as none. */
  predicate Keeps(row: OrderRow, t: Terms) {
    && row.key == t.key && row.cls == t.cls && row.side == t.side && row.kind == t.kind
    && row.reduceOnly == t.reduceOnly && row.killEpoch == t.killEpoch
    && Stores(row.limit, t.limit) && Stores(row.stop, t.stop) && Stores(row.take, t.take)
  }

  predicate Records(f: FillRow, o: Order) {
    f.qty == o.qty && f.price == o.price && f.fee == o.fee
  }

  /** A filled row has exactly one fill row, at its price; every other row has none. */
  predicate OneFill(v: View) {
    if v.row.Some? && v.row.value.status.Filled?
    then |v.fills| == 1 && v.row.value.price == Some(v.fills[0].price)
         && v.row.value.filledAt == Some(v.fills[0].at)
    else v.fills == []
  }

  predicate Mirrors(v: View, o: Order, status: Status, proposal: string) {
    && v.row.Some? && v.row.value.status == status && Keeps(v.row.value, o.terms)
    && v.row.value.proposal == proposal
    && (status.Open? || status == o.status)
    && (status.Filled? && |v.fills| == 1 ==> Records(v.fills[0], o))
  }

  predicate OrderInv(t: Tables, m: Mirror, oms: Oms, id: string) {
    var v := ViewOf(t, id);
    && OneFill(v)
    && (v.row.Some? ==> v.row.value.proposal != "")
    && (if id in m.statuses
        then id in oms.orders && id in m.proposals && Mirrors(v, oms.orders[id], m.statuses[id], m.proposals[id])
        else v.row.Some? ==> !v.row.value.status.Open?)
  }

  ghost predicate OrdersInv(r: Run) {
    forall id :: OrderInv(r.t, r.m, r.oms, id)
  }

  lemma SettledKeeps(v: View, id: string, o: Order, status: Status, proposal: string, at: int)
    requires OneFill(v) && Mirrors(v, o, status, proposal)
    ensures var v' := Settled(v, id, o, status, at);
      OneFill(v') && Mirrors(v', o, o.status, proposal)
  {
  }

  lemma InsertedKeeps(id: string, o: Order, pid: string, at: int)
    ensures var v := Inserted(id, o, pid, at);
      OneFill(v) && Mirrors(v, o, o.status, pid)
  {
  }

  /** What a committed transaction did to one order's row and fills. */
  ghost predicate Passed(r: Run, w: Work, at: int, id: string) {
    if id !in r.oms.orders then
      id !in w.proposals && ViewOf(w.tables, id) == ViewOf(r.t, id)
    else if id in r.m.statuses then
      && id !in w.proposals
      && ViewOf(w.tables, id) == Settled(ViewOf(r.t, id), id, r.oms.orders[id], r.m.statuses[id], at)
    else
      && id in w.proposals && w.proposals[id] != "" && ViewOf(r.t, id).row.None?
      && ViewOf(w.tables, id) == Inserted(id, r.oms.orders[id], w.proposals[id], at)
  }

  /** The order pass in its two halves. */
  lemma OrdersUnfold(r: Run, proposal: Option<string>, at: int)
    requires Orders(r.t, r.m, r.oms, proposal, at).Some?
    ensures var ids, w0 := ById(r.oms.orders.Keys), Work(r.t, map[], map[], {}, map[]);
      var w1 := SettleAll(w0, ids, r.oms, r.m, at);
      && w1.Some? && Orders(r.t, r.m, r.oms, proposal, at) == CreateAll(w1.value, ids, r.oms, r.m, proposal, at)
      && Distinct(ids)
  {
  }

  lemma PassedAt(r: Run, proposal: Option<string>, at: int, id: string)
    requires OrderInv(r.t, r.m, r.oms, id) && Orders(r.t, r.m, r.oms, proposal, at).Some?
    ensures Passed(r, Orders(r.t, r.m, r.oms, proposal, at).value, at, id)
  {
    var ids := ById(r.oms.orders.Keys);
    var w0 := Work(r.t, map[], map[], {}, map[]);
    OrdersUnfold(r, proposal, at);
    var w1 := SettleAll(w0, ids, r.oms, r.m, at).value;
    SettleAllIsLocal(w0, ids, r.oms, r.m, at, id);
    SettleAllStages(w0, ids, r.oms, r.m, at);
    CreateAllIsLocal(w1, ids, r.oms, r.m, proposal, at, id);
  }

  /** After the transaction the mirrored statuses are the OMS statuses. */
  lemma StatusesStaged(r: Run, proposal: Option<string>, at: int)
    requires Orders(r.t, r.m, r.oms, proposal, at).Some?
    ensures var w := Orders(r.t, r.m, r.oms, proposal, at).value;
      Staged(Work(r.t, map[], map[], {}, map[]), w, r.oms.orders.Keys, r.oms, r.m)
  {
    var ids := ById(r.oms.orders.Keys);
    var w0 := Work(r.t, map[], map[], {}, map[]);
    OrdersUnfold(r, proposal, at);
    var w1 := SettleAll(w0, ids, r.oms, r.m, at).value;
    SettleAllStages(w0, ids, r.oms, r.m, at);
    CreateAllStages(w0, w1, ids, r.oms, r.m, proposal, at, Known(ids, r.m));
    assert Known(ids, r.m) + Unknown(ids, r.m) == r.oms.orders.Keys;
  }

  /** The whole commit, piece by piece. */
  lemma CommitOf(r: Run, capital: real, proposal: Option<string>, at: int)
    requires Persist(r.t, r.m, r.oms, capital, proposal, at).Some?
    ensures Orders(r.t, r.m, r.oms, proposal, at).Some?
    ensures var w, r' := Orders(r.t, r.m, r.oms, proposal, at).value, Persisted(r, capital, proposal, at);
      var b := BooksOf(w.tables, r.m, r.oms, w.touched);
      var x := WriteAll(Snapshots(w.tables.states, []), ById(b.touched), capital, b.deltas, at);
      && r'.t == Tables(w.tables.orders, w.tables.fills, b.positions, x.rows)
      && r'.m == Mirror(r.m.statuses + w.statuses, r.m.books + b.staged, r.m.proposals + w.proposals)
      && r'.oms == r.oms && r'.writes == r.writes + x.writes
  {
  }

  lemma OrderCommitKeeps(r: Run, w: Work, r': Run, at: int, id: string)
    requires OrderInv(r.t, r.m, r.oms, id) && Passed(r, w, at, id)
    requires Staged(Work(r.t, map[], map[], {}, map[]), w, r.oms.orders.Keys, r.oms, r.m)
    requires r'.t.orders == w.tables.orders && r'.t.fills == w.tables.fills && r'.oms == r.oms
    requires r'.m.statuses == r.m.statuses + w.statuses && r'.m.proposals == r.m.proposals + w.proposals
    ensures OrderInv(r'.t, r'.m, r'.oms, id)
    ensures id in r.oms.orders ==> id in r'.m.statuses && r'.m.statuses[id] == r.oms.orders[id].status
  {
    assert ViewOf(r'.t, id) == ViewOf(w.tables, id);
    if id in r.oms.orders {
      var o := r.oms.orders[id];
      if id in r.m.statuses {
        SettledKeeps(ViewOf(r.t, id), id, o, r.m.statuses[id], r.m.proposals[id], at);
      } else {
        InsertedKeeps(id, o, w.proposals[id], at);
      }
    }
  }

  // ----- Books and equity -----

  ghost predicate BooksInv(r: Run) {
    r.m.books == r.t.positions && r.t.positions.Keys <= r.oms.books.Keys
  }

  /**
   Stored equity is the allocated capital plus the stored realized PnL; without a
   row that PnL is zero.
   */
  ghost predicate Accounts(row: Option<StateRow>, capital: real, realized: real, log: seq<Write>) {
    && (if row.Some? then row.value.equity else capital) == capital + realized
    && Explained(row, capital, log)
  }

  ghost predicate EquityAt(r: Run, capital: real, s: string) {
    Accounts(RowAt(r.t.states, s), capital, Realized(r.t.positions, s), LogOf(r.writes, s))
  }

  ghost predicate EquityInv(r: Run, capital: real) {
    forall s :: EquityAt(r, capital, s)
  }

  /** The book pass brings the positions table to the OMS books. */
  lemma BooksCommit(r: Run, w: Work, b: Books)
    requires BooksInv(r) && w.tables.positions == r.t.positions
    requires b == BooksOf(w.tables, r.m, r.oms, w.touched)
    ensures b.positions == r.oms.books && r.m.books + b.staged == b.positions
    ensures b.deltas.Keys <= b.touched && Balanced(b.deltas, b.positions, r.t.positions)
  {
    BookAllReaches(r.t.positions, r.oms.books, ByKey(r.oms.books.Keys), w.touched);
  }

  lemma AdvanceAccounts(row: Option<StateRow>, capital: real, realized: real, log: seq<Write>,
                        s: string, delta: real, at: int)
    requires Accounts(row, capital, realized, log)
    ensures var row' := Advance(row, capital, delta, at);
      Accounts(Some(row'), capital, realized + delta, log + [Write(s, delta, row'.equity, at)])
  {
    AdvanceIsExplained(row, capital, log, s, delta, at);
  }

  lemma EquityCommitKeeps(r: Run, r': Run, capital: real, b: Books, at: int, s: string)
    requires EquityAt(r, capital, s)
    requires b.deltas.Keys <= b.touched && Balanced(b.deltas, b.positions, r.t.positions)
    requires var x := WriteAll(Snapshots(r.t.states, []), ById(b.touched), capital, b.deltas, at);
      r'.t.positions == b.positions && r'.t.states == x.rows && r'.writes == r.writes + x.writes
    ensures EquityAt(r', capital, s)
  {
    var x0, ids := Snapshots(r.t.states, []), ById(b.touched);
    var x := WriteAll(x0, ids, capital, b.deltas, at);
    var delta := GetOr(b.deltas, s, 0.0);
    var row, realized, log := RowAt(r.t.states, s), Realized(r.t.positions, s), LogOf(r.writes, s);
    WriteAllIsPointwise(x0, ids, capital, b.deltas, at, s);
    LogJoins(r.writes, x.writes, s);
    assert Realized(b.positions, s) == realized + delta;
    if s in b.touched {
      var row' := Advance(row, capital, delta, at);
      AdvanceAccounts(row, capital, realized, log, s, delta, at);
      assert LogOf(x.writes, s) == [Write(s, delta, row'.equity, at)];
    } else {
      assert delta == 0.0 && LogOf(x.writes, s) == [];
      assert log + [] == log;
    }
  }

  // ----- Every run -----

  ghost predicate Inv(r: Run, capital: real) {
    OrdersInv(r) && BooksInv(r) && EquityInv(r, capital)
  }

  /** The mirrors and tables after a commit say exactly what the OMS says. */
  ghost predicate Aligned(r: Run) {
    && r.t.positions == r.oms.books
    && forall id :: id in r.oms.orders ==> id in r.m.statuses && r.m.statuses[id] == r.oms.orders[id].status
  }

  lemma CommitAligns(r: Run, capital: real, proposal: Option<string>, at: int)
    requires Inv(r, capital) && Persist(r.t, r.m, r.oms, capital, proposal, at).Some?
    ensures Inv(Persisted(r, capital, proposal, at), capital) && Aligned(Persisted(r, capital, proposal, at))
  {
    CommitOf(r, capital, proposal, at);
    var w, r' := Orders(r.t, r.m, r.oms, proposal, at).value, Persisted(r, capital, proposal, at);
    StatusesStaged(r, proposal, at);
    BooksCommit(r, w, BooksOf(w.tables, r.m, r.oms, w.touched));
    forall id
      ensures OrderInv(r'.t, r'.m, r'.oms, id)
      ensures id in r.oms.orders ==> id in r'.m.statuses && r'.m.statuses[id] == r.oms.orders[id].status
    {
      assert OrderInv(r.t, r.m, r.oms, id);
      PassedAt(r, proposal, at, id);
      OrderCommitKeeps(r, w, r', at, id);
    }
    forall s
      ensures EquityAt(r', capital, s)
    {
      assert EquityAt(r, capital, s);
      EquityCommitKeeps(r, r', capital, BooksOf(w.tables, r.m, r.oms, w.touched), at, s);
    }
  }

  lemma ActKeeps(r: Run, capital: real, next: Oms)
    requires Inv(r, capital) && Evolves(r.oms, next)
    ensures Inv(r.(oms := next), capital)
  {
    forall id
      ensures OrderInv(r.t, r.m, next, id)
    {
      assert OrderInv(r.t, r.m, r.oms, id);
    }
    forall s
      ensures EquityAt(r.(oms := next), capital, s)
    {
      assert EquityAt(r, capital, s);
    }
  }

  lemma DecOptDec(x: real)
    ensures OptDec(Dec(OptDec(x))) == OptDec(x)
    ensures Dec(OptDec(x)) == x <==> x >= 0.0
  {
  }

  lemma RestartKeepsOrder(r: Run, id: string)
    requires OrderInv(r.t, r.m, r.oms, id)
    ensures OrderInv(r.t, Hydrated(r.t), Rearmed(r.t), id)
  {
    if id in OpenIds(r.t) {
      RearmsOne(r.t, id);
      assert Mirrors(ViewOf(r.t, id), r.oms.orders[id], r.m.statuses[id], r.m.proposals[id]);
      DecOptDec(r.oms.orders[id].terms.limit);
      DecOptDec(r.oms.orders[id].terms.stop);
      DecOptDec(r.oms.orders[id].terms.take);
    }
  }

  lemma RestartKeeps(r: Run, capital: real)
    requires Inv(r, capital)
    ensures Inv(Next(r, capital, Restart), capital)
  {
    forall id
      ensures OrderInv(r.t, Hydrated(r.t), Rearmed(r.t), id)
    {
      assert OrderInv(r.t, r.m, r.oms, id);
      RestartKeepsOrder(r, id);
    }
    forall s
      ensures EquityAt(Next(r, capital, Restart), capital, s)
    {
      assert EquityAt(r, capital, s);
    }
  }

  lemma StartHolds(capital: real)
    ensures Inv(RunOf(capital, []), capital)
  {
    var r := RunOf(capital, []);
    forall s
      ensures EquityAt(r, capital, s)
    {
      assert Shares(r.t.positions, s) == map[];
    }
  }

  /** Every run keeps the invariant, whatever the OMS does within its rules. */
  lemma {:induction false} RunsKeepInv(capital: real, steps: seq<Step>)
    requires Possible(capital, steps)
    ensures Inv(RunOf(capital, steps), capital)
  {
    if steps == [] {
      StartHolds(capital);
    } else {
      var before, last := steps[..|steps| - 1], steps[|steps| - 1];
      RunsKeepInv(capital, before);
      var r := RunOf(capital, before);
      match last
      case Act(next) => ActKeeps(r, capital, next);
      case Restart => RestartKeeps(r, capital);
      case PersistStep(proposal, at, fails) =>
        if !fails && Persist(r.t, r.m, r.oms, capital, proposal, at).Some? {
          CommitAligns(r, capital, proposal, at);
        }
    }
  }

  /** What a commit leaves in the tables about one order of the OMS. */
  ghost predicate Booked(t: Tables, id: string, o: Order) {
    && id in t.orders && t.orders[id].status == o.status && Keeps(t.orders[id], o.terms)
    && t.orders[id].proposal != ""
    && var fills := FillsFor(t.fills, id);
       if o.status.Filled? then |fills| == 1 && Records(fills[0], o) else fills == []
  }

  /**
   After any run, a committed transaction leaves the stored positions equal to the
   OMS books, each OMS order booked with exactly one fill row if it is filled and
   none otherwise, no other open row, and each strategy's equity, peak and daily
   figure as its history of writes says.
   */
  lemma CommitIsFaithful(capital: real, steps: seq<Step>, proposal: Option<string>, at: int)
    requires Possible(capital, steps)
    requires var r := RunOf(capital, steps); Persist(r.t, r.m, r.oms, capital, proposal, at).Some?
    ensures var r := Persisted(RunOf(capital, steps), capital, proposal, at);
      && r.t.positions == r.oms.books
      && (forall id :: id in r.oms.orders ==> Booked(r.t, id, r.oms.orders[id]))
      && (forall id :: id in r.t.orders && r.t.orders[id].status.Open? ==>
            id in r.oms.orders && r.oms.orders[id].status.Open?)
      && (forall s :: EquityAt(r, capital, s))
  {
    RunsKeepInv(capital, steps);
    CommitAligns(RunOf(capital, steps), capital, proposal, at);
    var r := Persisted(RunOf(capital, steps), capital, proposal, at);
    forall id | id in r.oms.orders
      ensures Booked(r.t, id, r.oms.orders[id])
    {
      assert OrderInv(r.t, r.m, r.oms, id);
    }
    forall id | id in r.t.orders && r.t.orders[id].status.Open?
      ensures id in r.oms.orders && r.oms.orders[id].status.Open?
    {
      assert OrderInv(r.t, r.m, r.oms, id);
      assert ViewOf(r.t, id).row.Some?;
    }
  }
}
