/**
 The OMS bridge: a diff-based mirror of an in-memory order system into the orders,
 fills, positions and strategy_state tables.

 `Persist` is one persisting transaction as a function on tables, mirrors and the
 OMS; None is a rolled-back one. The class performs it and the restart.
 */
module BridgeTables {
  import opened Wrappers
  import opened Decimals
  import opened Sorting
  import opened MapSums

  datatype Status = Open | Filled | Canceled

  datatype Key = Key(strategy: string, symbol: string)

  /** What an order keeps for life; a zero price stands for none. */
  datatype Terms = Terms(key: Key, cls: string, side: string, kind: string, reduceOnly: bool,
                         limit: real, stop: real, take: real, killEpoch: int)

  datatype Order = Order(terms: Terms, status: Status, qty: real, price: real, fee: real)

  datatype Position = Position(qty: real, entry: real, fees: real, realized: real)

  /** The paper OMS: its orders by id and its books by strategy and symbol. */
  datatype Oms = Oms(orders: map<string, Order>, books: map<Key, Position>)

  datatype OrderRow = OrderRow(proposal: string, key: Key, cls: string, side: string, kind: string, reduceOnly: bool,
                               qty: real, limit: Option<real>, stop: Option<real>, take: Option<real>,
                               price: Option<real>, killEpoch: int, status: Status,
                               submittedAt: int, filledAt: Option<int>)

  datatype FillRow = FillRow(order: string, qty: real, price: real, fee: real, at: int)

  datatype StateRow = StateRow(equity: real, peak: real, daily: real, day: int)

  datatype Tables = Tables(orders: map<string, OrderRow>, fills: seq<FillRow>,
                           positions: map<Key, Position>, states: map<string, StateRow>)

  /** The bridge's in-memory picture of what is persisted. */
  datatype Mirror = Mirror(statuses: map<string, Status>, books: map<Key, Position>, proposals: map<string, string>)

  // ----- Listing in the order of the code -----

  predicate KeyLe(a: Key, b: Key) {
    if a.strategy == b.strategy then LexLe(a.symbol, b.symbol) else LexLe(a.strategy, b.strategy)
  }

  lemma KeyIsTotal()
    ensures TotalOrder(KeyLe)
  {
    LexIsTotal();
  }

  function ById(ids: set<string>): (r: seq<string>)
    ensures |r| == |ids|
    ensures forall x :: x in r <==> x in ids
    ensures forall i, j :: 0 <= i < j < |r| ==> LexLe(r[i], r[j]) && r[i] != r[j]
  {
    LexIsTotal();
    Listed(ids, LexLe)
  }

  function ByKey(keys: set<Key>): (r: seq<Key>)
    ensures |r| == |keys|
    ensures forall x :: x in r <==> x in keys
    ensures forall i, j :: 0 <= i < j < |r| ==> r[i] != r[j]
  {
    KeyIsTotal();
    Listed(keys, KeyLe)
  }

  // ----- Rows -----

  function OptDec(d: real): Option<real> {
    if d <= 0.0 then None else Some(d)
  }

  function Dec(d: Option<real>): real {
    if d.Some? then d.value else 0.0
  }

  function RowOf(o: Order, proposal: string, at: int): OrderRow {
    var t := o.terms;
    OrderRow(proposal, t.key, t.cls, t.side, t.kind, t.reduceOnly, o.qty,
             OptDec(t.limit), OptDec(t.stop), OptDec(t.take),
             if o.status.Filled? then Some(o.price) else None, t.killEpoch, o.status,
             at, if o.status.Filled? then Some(at) else None)
  }

  /** The terms a row gives back at hydration. */
  function TermsOf(row: OrderRow): Terms {
    Terms(row.key, row.cls, row.side, row.kind, row.reduceOnly,
          Dec(row.limit), Dec(row.stop), Dec(row.take), row.killEpoch)
  }

  /** A re-armed order; it has no fill yet. */
  function OrderOf(row: OrderRow): Order {
    Order(TermsOf(row), row.status, row.qty, 0.0, 0.0)
  }

  function FillOf(id: string, o: Order, at: int): FillRow {
    FillRow(id, o.qty, o.price, o.fee, at)
  }

  // ----- One transaction -----

  /** Open transaction: the tables so far and what is staged for the mirrors. */
  datatype Work = Work(tables: Tables, statuses: map<string, Status>, proposals: map<string, string>,
                       touched: set<string>, entryFills: map<Key, string>)

  function Book(t: Tables, id: string, o: Order, at: int): Tables {
    t.(fills := t.fills + [FillOf(id, o, at)])
  }

  /** An order already mirrored: its FSM change, and its fill row when it filled. */
  function Settle(w: Work, id: string, o: Order, m: Mirror, at: int): Option<Work>
    requires id in m.statuses
  {
    if m.statuses[id] == o.status then Some(w)
    else if o.status.Open? then Some(w.(statuses := w.statuses[id := o.status]))
    else if id !in w.tables.orders then None
    else
      var row := w.tables.orders[id];
      if o.status.Canceled? then
        Some(w.(tables := w.tables.(orders := w.tables.orders[id := row.(status := Canceled)]),
                statuses := w.statuses[id := Canceled]))
      else
        var filled := row.(status := Filled, price := Some(o.price), filledAt := Some(at));
        Some(w.(tables := Book(w.tables.(orders := w.tables.orders[id := filled]), id, o, at),
                statuses := w.statuses[id := Filled],
                touched := w.touched + {o.terms.key.strategy},
                entryFills := if o.terms.cls == "ENTRY"
                              then w.entryFills[o.terms.key := GetOr(m.proposals, id, "")]
                              else w.entryFills))
  }

  function ProposalFor(w: Work, o: Order, proposal: Option<string>): string {
    if proposal.Some? then proposal.value else GetOr(w.entryFills, o.terms.key, "")
  }

  /** An order the bridge has not seen: inserted under its proposal. */
  function Create(w: Work, id: string, o: Order, proposal: Option<string>, at: int): Option<Work> {
    var pid := ProposalFor(w, o, proposal);
    if pid == "" || id in w.tables.orders then None
    else
      var inserted := w.tables.(orders := w.tables.orders[id := RowOf(o, pid, at)]);
      Some(w.(tables := if o.status.Filled? then Book(inserted, id, o, at) else inserted,
              statuses := w.statuses[id := o.status],
              proposals := w.proposals[id := pid],
              touched := if o.status.Filled? then w.touched + {o.terms.key.strategy} else w.touched))
  }

  function SettleAll(w: Work, ids: seq<string>, oms: Oms, m: Mirror, at: int): Option<Work>
    requires forall id :: id in ids ==> id in oms.orders
  {
    if ids == [] then Some(w)
    else
      var before, id := SettleAll(w, ids[..|ids| - 1], oms, m, at), ids[|ids| - 1];
      if before.None? || id !in m.statuses then before else Settle(before.value, id, oms.orders[id], m, at)
  }

  function CreateAll(w: Work, ids: seq<string>, oms: Oms, m: Mirror, proposal: Option<string>, at: int): Option<Work>
    requires forall id :: id in ids ==> id in oms.orders
  {
    if ids == [] then Some(w)
    else
      var before, id := CreateAll(w, ids[..|ids| - 1], oms, m, proposal, at), ids[|ids| - 1];
      if before.None? || id in m.statuses then before
      else Create(before.value, id, oms.orders[id], proposal, at)
  }

  /** The book pass: changed positions, realized deltas per strategy, touched strategies. */
  datatype Books = Books(positions: map<Key, Position>, staged: map<Key, Position>,
                         deltas: map<string, real>, touched: set<string>)

  function Delta(prev: map<Key, Position>, k: Key, p: Position): real {
    p.realized - (if k in prev then prev[k].realized else 0.0)
  }

  function BookStep(b: Books, k: Key, p: Position, prev: map<Key, Position>): Books {
    if k in prev && prev[k] == p then b
    else
      var d, s := Delta(prev, k, p), k.strategy;
      Books(b.positions[k := p], b.staged[k := p],
            if d != 0.0 then b.deltas[s := GetOr(b.deltas, s, 0.0) + d] else b.deltas,
            if d != 0.0 then b.touched + {s} else b.touched)
  }

  function BookAll(b: Books, keys: seq<Key>, books: map<Key, Position>, prev: map<Key, Position>): Books
    requires forall k :: k in keys ==> k in books
  {
    if keys == [] then b
    else
      var before, k := BookAll(b, keys[..|keys| - 1], books, prev), keys[|keys| - 1];
      BookStep(before, k, books[k], prev)
  }

  const DAY := 86400

  function UtcDay(at: int): int {
    at / DAY
  }

  /** One realized-equity write, for the history. */
  datatype Write = Write(strategy: string, delta: real, equity: real, at: int)

  /** The snapshot after a delta: a new UTC day restarts the daily figure, the peak only rises. */
  function Advance(row: Option<StateRow>, capital: real, delta: real, at: int): StateRow {
    var equity := (if row.Some? then row.value.equity else capital) + delta;
    var peak := if row.Some? then row.value.peak else capital;
    var daily := if row.Some? && row.value.day == UtcDay(at) then row.value.daily else 0.0;
    StateRow(equity, Max(peak, equity), daily + delta, UtcDay(at))
  }

  datatype Snapshots = Snapshots(rows: map<string, StateRow>, writes: seq<Write>)

  function RowAt(rows: map<string, StateRow>, s: string): Option<StateRow> {
    if s in rows then Some(rows[s]) else None
  }

  function WriteState(x: Snapshots, s: string, capital: real, delta: real, at: int): Snapshots {
    var row := Advance(RowAt(x.rows, s), capital, delta, at);
    Snapshots(x.rows[s := row], x.writes + [Write(s, delta, row.equity, at)])
  }

  function WriteAll(x: Snapshots, ids: seq<string>, capital: real, deltas: map<string, real>, at: int): Snapshots {
    if ids == [] then x
    else
      var before, s := WriteAll(x, ids[..|ids| - 1], capital, deltas, at), ids[|ids| - 1];
      WriteState(before, s, capital, GetOr(deltas, s, 0.0), at)
  }

  datatype Commit = Commit(tables: Tables, mirror: Mirror, writes: seq<Write>)

  function Orders(t: Tables, m: Mirror, oms: Oms, proposal: Option<string>, at: int): Option<Work> {
    var ids := ById(oms.orders.Keys);
    var settled := SettleAll(Work(t, map[], map[], {}, map[]), ids, oms, m, at);
    if settled.None? then None else CreateAll(settled.value, ids, oms, m, proposal, at)
  }

  function BooksOf(t: Tables, m: Mirror, oms: Oms, touched: set<string>): Books {
    BookAll(Books(t.positions, map[], map[], touched), ByKey(oms.books.Keys), oms.books, m.books)
  }

  /** The book and snapshot passes that complete a transaction whose orders went through. */
  function Completed(w: Work, m: Mirror, oms: Oms, capital: real, at: int): Commit {
    var b := BooksOf(w.tables, m, oms, w.touched);
    var x := WriteAll(Snapshots(w.tables.states, []), ById(b.touched), capital, b.deltas, at);
    Commit(Tables(w.tables.orders, w.tables.fills, b.positions, x.rows),
           Mirror(m.statuses + w.statuses, m.books + b.staged, m.proposals + w.proposals), x.writes)
  }

  /** One persisting transaction; None when it is rolled back. */
  function Persist(t: Tables, m: Mirror, oms: Oms, capital: real, proposal: Option<string>, at: int): Option<Commit> {
    var w := Orders(t, m, oms, proposal, at);
    if w.None? then None else Some(Completed(w.value, m, oms, capital, at))
  }

  // ----- Restart -----

  function OpenIds(t: Tables): set<string> {
    set id | id in t.orders && t.orders[id].status.Open?
  }

  function Rearmed(t: Tables): Oms {
    Oms(map id | id in OpenIds(t) :: OrderOf(t.orders[id]), t.positions)
  }

  function Hydrated(t: Tables): Mirror {
    Mirror(map id | id in OpenIds(t) :: Open, t.positions, map id | id in OpenIds(t) :: t.orders[id].proposal)
  }

  lemma RearmsOne(t: Tables, id: string)
    requires id in OpenIds(t)
    ensures id in Rearmed(t).orders && Rearmed(t).orders[id] == OrderOf(t.orders[id])
    ensures id in Hydrated(t).statuses && Hydrated(t).statuses[id] == Open
    ensures id in Hydrated(t).proposals && Hydrated(t).proposals[id] == t.orders[id].proposal
  {
  }

  /** All entries of a map but those still to do. */
  ghost predicate Restored<K, V>(part: map<K, V>, m: map<K, V>, todo: set<K>) {
    part == m - todo
  }

  lemma RestoreNext<K, V>(part: map<K, V>, m: map<K, V>, todo: set<K>, k: K, v: V)
    requires k in todo && k in m && v == m[k] && Restored(part, m, todo)
    ensures Restored(part[k := v], m, todo - {k})
  {
  }

  lemma RestoreStart<K, V>(m: map<K, V>)
    ensures Restored(map[], m, m.Keys) && m - {} == m
  {
  }

  // ----- Loop steps -----

  lemma SettleNext(w: Work, ids: seq<string>, n: nat, oms: Oms, m: Mirror, at: int)
    requires n < |ids| && forall id :: id in ids ==> id in oms.orders
    ensures var before, id := SettleAll(w, ids[..n], oms, m, at), ids[n];
      SettleAll(w, ids[..n + 1], oms, m, at)
      == if before.None? || id !in m.statuses then before else Settle(before.value, id, oms.orders[id], m, at)
  {
    assert ids[..n + 1][..n] == ids[..n];
  }

  lemma {:induction false} SettleStuck(w: Work, ids: seq<string>, n: nat, oms: Oms, m: Mirror, at: int)
    requires n <= |ids| && forall id :: id in ids ==> id in oms.orders
    requires SettleAll(w, ids[..n], oms, m, at).None?
    ensures SettleAll(w, ids, oms, m, at).None?
    decreases |ids| - n
  {
    if n < |ids| {
      SettleNext(w, ids, n, oms, m, at);
      SettleStuck(w, ids, n + 1, oms, m, at);
    } else {
      assert ids[..n] == ids;
    }
  }

  lemma CreateNext(w: Work, ids: seq<string>, n: nat, oms: Oms, m: Mirror, proposal: Option<string>, at: int)
    requires n < |ids| && forall id :: id in ids ==> id in oms.orders
    ensures var before, id := CreateAll(w, ids[..n], oms, m, proposal, at), ids[n];
      CreateAll(w, ids[..n + 1], oms, m, proposal, at)
      == if before.None? || id in m.statuses then before else Create(before.value, id, oms.orders[id], proposal, at)
  {
    assert ids[..n + 1][..n] == ids[..n];
  }

  lemma {:induction false} CreateStuck(w: Work, ids: seq<string>, n: nat, oms: Oms, m: Mirror,
                                       proposal: Option<string>, at: int)
    requires n <= |ids| && forall id :: id in ids ==> id in oms.orders
    requires CreateAll(w, ids[..n], oms, m, proposal, at).None?
    ensures CreateAll(w, ids, oms, m, proposal, at).None?
    decreases |ids| - n
  {
    if n < |ids| {
      CreateNext(w, ids, n, oms, m, proposal, at);
      CreateStuck(w, ids, n + 1, oms, m, proposal, at);
    } else {
      assert ids[..n] == ids;
    }
  }

  lemma BookNext(b: Books, keys: seq<Key>, n: nat, books: map<Key, Position>, prev: map<Key, Position>)
    requires n < |keys| && forall k :: k in keys ==> k in books
    ensures BookAll(b, keys[..n + 1], books, prev)
         == BookStep(BookAll(b, keys[..n], books, prev), keys[n], books[keys[n]], prev)
  {
    assert keys[..n + 1][..n] == keys[..n];
  }

  lemma WriteNext(x: Snapshots, ids: seq<string>, n: nat, capital: real, deltas: map<string, real>, at: int)
    requires n < |ids|
    ensures WriteAll(x, ids[..n + 1], capital, deltas, at)
         == WriteState(WriteAll(x, ids[..n], capital, deltas, at), ids[n], capital, GetOr(deltas, ids[n], 0.0), at)
  {
    assert ids[..n + 1][..n] == ids[..n];
  }

  // ----- The bridge -----

  class Bridge {
    const capital: real
    // The tables.
    var orders: map<string, OrderRow>
    var fills: seq<FillRow>
    var positions: map<Key, Position>
    var states: map<string, StateRow>
    // The OMS.
    var live: map<string, Order>
    var held: map<Key, Position>
    var killEpochs: map<string, int>
    // The mirrors.
    var statuses: map<string, Status>
    var books: map<Key, Position>
    var proposals: map<string, string>

    function Stored(): Tables
      reads this
    {
      Tables(orders, fills, positions, states)
    }

    function InMemory(): Oms
      reads this
    {
      Oms(live, held)
    }

    function Mirrored(): Mirror
      reads this
    {
      Mirror(statuses, books, proposals)
    }

    constructor (capital: real, t: Tables, bound: map<string, int>)
      ensures this.capital == capital && Stored() == t
      ensures InMemory() == Rearmed(t) && Mirrored() == Hydrated(t)
      ensures EpochsRestored(bound)
    {
      this.capital := capital;
      orders, fills, positions, states := t.orders, t.fills, t.positions, t.states;
      live, held, statuses, books, proposals := map[], map[], map[], map[], map[];
      killEpochs := map[];
      new;
      HydratePositions();
      HydrateOrders();
      HydrateEpochs(bound);
    }

    /** Each strategy's OMS epoch is the highest kill epoch that binds it, zero without one. */
    ghost predicate EpochsRestored(bound: map<string, int>)
      reads this
    {
      forall s :: GetOr(killEpochs, s, 0) == if GetOr(bound, s, 0) > 0 then bound[s] else 0
    }

    method HydrateEpochs(bound: map<string, int>)
      requires killEpochs == map[]
      modifies this`killEpochs
      ensures EpochsRestored(bound)
    {
      var todo := bound.Keys;
      while todo != {}
        invariant todo <= bound.Keys && killEpochs.Keys <= bound.Keys - todo
        invariant forall s :: s in bound && s !in todo ==>
          GetOr(killEpochs, s, 0) == if bound[s] > 0 then bound[s] else 0
        decreases |todo|
      {
        var s :| s in todo;
        if bound[s] > GetOr(killEpochs, s, 0) {
          killEpochs := killEpochs[s := bound[s]];
        }
        todo := todo - {s};
      }
    }

    /** Restores the books from the positions table, row by row. */
    method HydratePositions()
      requires held == books == map[]
      modifies this`held, this`books
      ensures held == books == positions
    {
      var todo := positions.Keys;
      RestoreStart(positions);
      while todo != {}
        invariant todo <= positions.Keys
        invariant Restored(held, positions, todo) && Restored(books, positions, todo)
        decreases |todo|
      {
        var key :| key in todo;
        var position := positions[key];
        RestoreNext(held, positions, todo, key, position);
        RestoreNext(books, positions, todo, key, position);
        held := held[key := position];
        books := books[key := position];
        todo := todo - {key};
      }
    }

    /** Re-arms the open orders from the orders table, row by row. */
    method HydrateOrders()
      requires live == map[] && statuses == map[] && proposals == map[]
      modifies this`live, this`statuses, this`proposals
      ensures live == Rearmed(Stored()).orders
      ensures statuses == Hydrated(Stored()).statuses && proposals == Hydrated(Stored()).proposals
    {
      var todo := OpenIds(Stored());
      ghost var armed, seen, from := Rearmed(Stored()).orders, Hydrated(Stored()).statuses, Hydrated(Stored()).proposals;
      RestoreStart(armed);
      RestoreStart(seen);
      RestoreStart(from);
      while todo != {}
        invariant todo <= OpenIds(Stored())
        invariant Restored(live, armed, todo)
        invariant Restored(statuses, seen, todo)
        invariant Restored(proposals, from, todo)
        decreases |todo|
      {
        var id :| id in todo;
        RearmsOne(Stored(), id);
        var row := orders[id];
        RestoreNext(live, armed, todo, id, OrderOf(row));
        RestoreNext(statuses, seen, todo, id, Open);
        RestoreNext(proposals, from, todo, id, row.proposal);
        live := live[id := OrderOf(row)];
        statuses := statuses[id := Open];
        proposals := proposals[id := row.proposal];
        todo := todo - {id};
      }
    }

    /** The diff of known orders; false when a row is missing. */
    method SettleOrders(ids: seq<string>, w0: Work, at: int) returns (ok: bool, w: Work)
      requires forall id :: id in ids ==> id in live
      ensures SettleAll(w0, ids, InMemory(), Mirrored(), at) == if ok then Some(w) else None
    {
      var n := 0;
      w := w0;
      while n < |ids|
        invariant 0 <= n <= |ids|
        invariant SettleAll(w0, ids[..n], InMemory(), Mirrored(), at) == Some(w)
      {
        SettleNext(w0, ids, n, InMemory(), Mirrored(), at);
        var id, o := ids[n], live[ids[n]];
        if id in statuses && statuses[id] != o.status {
          var tables, touched, entryFills := w.tables, w.touched, w.entryFills;
          if o.status.Open? {
          } else if id !in tables.orders {
            SettleStuck(w0, ids, n + 1, InMemory(), Mirrored(), at);
            return false, w;
          } else if o.status.Canceled? {
            tables := tables.(orders := tables.orders[id := tables.orders[id].(status := Canceled)]);
          } else {
            var row := tables.orders[id].(status := Filled, price := Some(o.price), filledAt := Some(at));
            tables := tables.(orders := tables.orders[id := row], fills := tables.fills + [FillOf(id, o, at)]);
            touched := touched + {o.terms.key.strategy};
            if o.terms.cls == "ENTRY" {
              entryFills := entryFills[o.terms.key := if id in proposals then proposals[id] else ""];
            }
          }
          w := Work(tables, w.statuses[id := o.status], w.proposals, touched, entryFills);
        }
        n := n + 1;
      }
      assert ids[..n] == ids;
      ok := true;
    }

    /** Inserts the orders the mirrors do not know; false when one has no proposal or its id is taken. */
    method CreateOrders(ids: seq<string>, w0: Work, proposal: Option<string>, at: int) returns (ok: bool, w: Work)
      requires forall id :: id in ids ==> id in live
      ensures CreateAll(w0, ids, InMemory(), Mirrored(), proposal, at) == if ok then Some(w) else None
    {
      var n := 0;
      w := w0;
      while n < |ids|
        invariant 0 <= n <= |ids|
        invariant CreateAll(w0, ids[..n], InMemory(), Mirrored(), proposal, at) == Some(w)
      {
        CreateNext(w0, ids, n, InMemory(), Mirrored(), proposal, at);
        var id, o := ids[n], live[ids[n]];
        if id !in statuses {
          var pid := if o.terms.key in w.entryFills then w.entryFills[o.terms.key] else "";
          if proposal.Some? {
            pid := proposal.value;
          }
          if pid == "" || id in w.tables.orders {
            CreateStuck(w0, ids, n + 1, InMemory(), Mirrored(), proposal, at);
            return false, w;
          }
          var tables, touched := w.tables.(orders := w.tables.orders[id := RowOf(o, pid, at)]), w.touched;
          if o.status.Filled? {
            tables := tables.(fills := tables.fills + [FillOf(id, o, at)]);
            touched := touched + {o.terms.key.strategy};
          }
          w := Work(tables, w.statuses[id := o.status], w.proposals[id := pid], touched, w.entryFills);
        }
        n := n + 1;
      }
      assert ids[..n] == ids;
      ok := true;
    }

    method PersistBook(b0: Books, key: Key, position: Position) returns (b: Books)
      ensures b == BookStep(b0, key, position, books)
    {
      b := b0;
      if key !in books || books[key] != position {
        b := b.(positions := b.positions[key := position], staged := b.staged[key := position]);
        var d := position.realized - (if key in books then books[key].realized else 0.0);
        if d != 0.0 {
          var s := key.strategy;
          b := b.(deltas := b.deltas[s := (if s in b.deltas then b.deltas[s] else 0.0) + d],
                  touched := b.touched + {s});
        }
      }
    }

    /** Upserts the changed books and adds up the realized deltas. */
    method PersistBooks(w: Work) returns (b: Books)
      ensures b == BooksOf(w.tables, Mirrored(), InMemory(), w.touched)
    {
      var keys := ByKey(held.Keys);
      b := Books(w.tables.positions, map[], map[], w.touched);
      ghost var b0 := b;
      var n := 0;
      while n < |keys|
        invariant 0 <= n <= |keys|
        invariant b == BookAll(b0, keys[..n], held, books)
      {
        BookNext(b0, keys, n, held, books);
        b := PersistBook(b, keys[n], held[keys[n]]);
        n := n + 1;
      }
      assert keys[..n] == keys;
    }

    /** Advances the snapshot of each touched strategy. */
    method WriteStates(rows: map<string, StateRow>, b: Books, at: int) returns (x: Snapshots)
      ensures x == WriteAll(Snapshots(rows, []), ById(b.touched), capital, b.deltas, at)
    {
      var ids := ById(b.touched);
      x := Snapshots(rows, []);
      var n := 0;
      while n < |ids|
        invariant 0 <= n <= |ids|
        invariant x == WriteAll(Snapshots(rows, []), ids[..n], capital, b.deltas, at)
      {
        WriteNext(Snapshots(rows, []), ids, n, capital, b.deltas, at);
        x := WriteState(x, ids[n], capital, GetOr(b.deltas, ids[n], 0.0), at);
        n := n + 1;
      }
      assert ids[..n] == ids;
    }

    /** The order pass: known orders first, then the new ones. */
    method PersistOrders(proposal: Option<string>, at: int) returns (ok: bool, w: Work)
      ensures Orders(Stored(), Mirrored(), InMemory(), proposal, at) == if ok then Some(w) else None
    {
      var ids := ById(live.Keys);
      ok, w := SettleOrders(ids, Work(Stored(), map[], map[], {}, map[]), at);
      if ok {
        ok, w := CreateOrders(ids, w, proposal, at);
      }
    }

    /** One transaction on the tables as they stand. */
    method Transact(proposal: Option<string>, at: int) returns (commit: Option<Commit>)
      ensures commit == Persist(Stored(), Mirrored(), InMemory(), capital, proposal, at)
    {
      var ok, w := PersistOrders(proposal, at);
      if !ok {
        return None;
      }
      var b := PersistBooks(w);
      var x := WriteStates(w.tables.states, b, at);
      commit := Some(Commit(Tables(w.tables.orders, w.tables.fills, b.positions, x.rows),
                            Mirror(statuses + w.statuses, books + b.staged, proposals + w.proposals), x.writes));
    }

    method Merge(t: Tables, m: Mirror)
      modifies this`orders, this`fills, this`positions, this`states, this`statuses, this`books, this`proposals
      ensures Stored() == t && Mirrored() == m
    {
      orders, fills, positions, states := t.orders, t.fills, t.positions, t.states;
      statuses, books, proposals := m.statuses, m.books, m.proposals;
    }

    /** The mirrors are merged only after the transaction commits. */
    method PersistLocked(proposal: Option<string>, at: int) returns (commit: Option<Commit>)
      modifies this`orders, this`fills, this`positions, this`states, this`statuses, this`books, this`proposals
      ensures commit == old(Persist(Stored(), Mirrored(), InMemory(), capital, proposal, at))
      ensures commit.Some? ==> Stored() == commit.value.tables && Mirrored() == commit.value.mirror
      ensures commit.None? ==> Stored() == old(Stored()) && Mirrored() == old(Mirrored())
    {
      commit := Transact(proposal, at);
      if commit.Some? {
        Merge(commit.value.tables, commit.value.mirror);
      }
    }

    /** The OMS reached next under a submission; its effects are persisted even if the submission failed. */
    method SubmitApproved(proposal: string, next: Oms, at: int) returns (commit: Option<Commit>)
      modifies this
      ensures InMemory() == next
      ensures commit == Persist(old(Stored()), old(Mirrored()), next, capital, Some(proposal), at)
      ensures commit.Some? ==> Stored() == commit.value.tables && Mirrored() == commit.value.mirror
      ensures commit.None? ==> Stored() == old(Stored()) && Mirrored() == old(Mirrored())
    {
      live, held := next.orders, next.books;
      commit := PersistLocked(Some(proposal), at);
    }

    /** A tick sweep, or the cancellation of resting entries: no submission in flight. */
    method Sweep(next: Oms, at: int) returns (commit: Option<Commit>)
      modifies this
      ensures InMemory() == next
      ensures commit == Persist(old(Stored()), old(Mirrored()), next, capital, None, at)
      ensures commit.Some? ==> Stored() == commit.value.tables && Mirrored() == commit.value.mirror
      ensures commit.None? ==> Stored() == old(Stored()) && Mirrored() == old(Mirrored())
    {
      live, held := next.orders, next.books;
      commit := PersistLocked(None, at);
    }
  }

  /** A bridge over the tables; none without a positive allocated capital. */
  method NewBridge(capital: real, t: Tables, bound: map<string, int>) returns (b: Option<Bridge>)
    ensures b.Some? <==> capital > 0.0
    ensures b.Some? ==>
      && fresh(b.value) && b.value.capital == capital && b.value.Stored() == t
      && b.value.InMemory() == Rearmed(t) && b.value.Mirrored() == Hydrated(t) && b.value.EpochsRestored(bound)
  {
    if capital <= 0.0 {
      return None;
    }
    var bridge := new Bridge(capital, t, bound);
    b := Some(bridge);
  }
}
