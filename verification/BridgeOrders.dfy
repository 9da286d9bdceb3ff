/**
 The order half of a persisting transaction, order by order: what happens to the
 row and the fill rows of one id depends on that id alone.
 */
module BridgeOrders {
  import opened Wrappers
  import opened BridgeTables

  function FillsFor(fills: seq<FillRow>, id: string): (r: seq<FillRow>)
    ensures forall f :: f in r ==> f in fills && f.order == id
  {
    if fills == [] then []
    else
      var rest, last := FillsFor(fills[..|fills| - 1], id), fills[|fills| - 1];
      if last.order == id then rest + [last] else rest
  }

  lemma FillsForPush(fills: seq<FillRow>, f: FillRow, id: string)
    ensures FillsFor(fills + [f], id) == if f.order == id then FillsFor(fills, id) + [f] else FillsFor(fills, id)
  {
    assert (fills + [f])[..|fills|] == fills;
  }

  /** One order in the tables: its row, if any, and its fill rows. */
  datatype View = View(row: Option<OrderRow>, fills: seq<FillRow>)

  function ViewOf(t: Tables, id: string): View {
    View(if id in t.orders then Some(t.orders[id]) else None, FillsFor(t.fills, id))
  }

  /** The view after the diff of a known order. */
  function Settled(v: View, id: string, o: Order, prev: Status, at: int): View {
    if prev == o.status || o.status.Open? || v.row.None? then v
    else if o.status.Canceled? then View(Some(v.row.value.(status := Canceled)), v.fills)
    else View(Some(v.row.value.(status := Filled, price := Some(o.price), filledAt := Some(at))),
              v.fills + [FillOf(id, o, at)])
  }

  /** The view after a new order is inserted. */
  function Inserted(id: string, o: Order, pid: string, at: int): View {
    View(Some(RowOf(o, pid, at)), if o.status.Filled? then [FillOf(id, o, at)] else [])
  }

  lemma SettledView(t: Tables, t': Tables, id: string, row: OrderRow, f: FillRow, books: bool, other: string)
    requires f.order == id && t'.orders == t.orders[id := row]
    requires t'.fills == if books then t.fills + [f] else t.fills
    ensures ViewOf(t', other)
         == if other == id then View(Some(row), FillsFor(t.fills, id) + (if books then [f] else [])) else ViewOf(t, other)
  {
    FillsForPush(t.fills, f, other);
  }

  lemma SettleIsLocal(w: Work, id: string, o: Order, m: Mirror, at: int, other: string)
    requires id in m.statuses && Settle(w, id, o, m, at).Some?
    ensures var w' := Settle(w, id, o, m, at).value;
      ViewOf(w'.tables, other)
      == if other == id then Settled(ViewOf(w.tables, id), id, o, m.statuses[id], at) else ViewOf(w.tables, other)
  {
    var w' := Settle(w, id, o, m, at).value;
    if m.statuses[id] != o.status && !o.status.Open? {
      SettledView(w.tables, w'.tables, id, w'.tables.orders[id], FillOf(id, o, at), o.status.Filled?, other);
    }
  }

  lemma SettleStages(w: Work, id: string, o: Order, m: Mirror, at: int)
    requires id in m.statuses && Settle(w, id, o, m, at).Some?
    ensures var w' := Settle(w, id, o, m, at).value;
      && w'.statuses == (if m.statuses[id] == o.status then w.statuses else w.statuses[id := o.status])
      && w'.proposals == w.proposals
      && w'.tables.positions == w.tables.positions && w'.tables.states == w.tables.states
  {
  }

  ghost predicate Distinct(ids: seq<string>) {
    forall i, j :: 0 <= i < j < |ids| ==> ids[i] != ids[j]
  }

  lemma {:induction false} SettleAllIsLocal(w: Work, ids: seq<string>, oms: Oms, m: Mirror, at: int, id: string)
    requires Distinct(ids) && forall x :: x in ids ==> x in oms.orders
    requires SettleAll(w, ids, oms, m, at).Some?
    ensures var w' := SettleAll(w, ids, oms, m, at).value;
      ViewOf(w'.tables, id)
      == if id in ids && id in m.statuses
         then Settled(ViewOf(w.tables, id), id, oms.orders[id], m.statuses[id], at)
         else ViewOf(w.tables, id)
  {
    if ids != [] {
      var before, last := ids[..|ids| - 1], ids[|ids| - 1];
      SettleAllIsLocal(w, before, oms, m, at, id);
      assert ids == before + [last] && last !in before;
      if last in m.statuses {
        SettleIsLocal(SettleAll(w, before, oms, m, at).value, last, oms.orders[last], m, at, id);
      }
    }
  }

  ghost function Known(ids: seq<string>, m: Mirror): set<string> {
    set id | id in ids && id in m.statuses
  }

  ghost function Unknown(ids: seq<string>, m: Mirror): set<string> {
    set id | id in ids && id !in m.statuses
  }

  /** What the transaction has staged once a set of orders is done. */
  ghost predicate Staged(w0: Work, w: Work, done: set<string>, oms: Oms, m: Mirror) {
    && w.tables.positions == w0.tables.positions && w.tables.states == w0.tables.states
    && w.statuses.Keys <= done && done <= oms.orders.Keys
    && forall id :: id in done ==>
         && (id in w.statuses ==> w.statuses[id] == oms.orders[id].status)
         && (id !in w.statuses ==> id in m.statuses && m.statuses[id] == oms.orders[id].status)
  }

  lemma {:induction false} SettleAllStages(w: Work, ids: seq<string>, oms: Oms, m: Mirror, at: int)
    requires forall x :: x in ids ==> x in oms.orders
    requires SettleAll(w, ids, oms, m, at).Some? && w.statuses == map[] && w.proposals == map[]
    ensures var w' := SettleAll(w, ids, oms, m, at).value;
      Staged(w, w', Known(ids, m), oms, m) && w'.proposals == map[]
  {
    if ids != [] {
      var before, last := ids[..|ids| - 1], ids[|ids| - 1];
      SettleAllStages(w, before, oms, m, at);
      assert ids == before + [last];
      if last in m.statuses {
        SettleStages(SettleAll(w, before, oms, m, at).value, last, oms.orders[last], m, at);
      }
    }
  }

  lemma CreateLeavesOthers(w: Work, id: string, o: Order, proposal: Option<string>, at: int, other: string)
    requires Create(w, id, o, proposal, at).Some? && other != id
    ensures ViewOf(Create(w, id, o, proposal, at).value.tables, other) == ViewOf(w.tables, other)
  {
    FillsForPush(w.tables.fills, FillOf(id, o, at), other);
  }

  lemma CreateStages(w: Work, id: string, o: Order, proposal: Option<string>, at: int)
    requires Create(w, id, o, proposal, at).Some?
    ensures var w' := Create(w, id, o, proposal, at).value;
      && id !in w.tables.orders
      && id in w'.proposals && w'.proposals[id] != "" && w'.proposals == w.proposals[id := w'.proposals[id]]
      && w'.tables.orders == w.tables.orders[id := RowOf(o, w'.proposals[id], at)]
      && w'.tables.fills == (if o.status.Filled? then w.tables.fills + [FillOf(id, o, at)] else w.tables.fills)
  {
  }

  lemma InsertedView(t: Tables, t': Tables, id: string, o: Order, pid: string, at: int)
    requires ViewOf(t, id).fills == [] && t'.orders == t.orders[id := RowOf(o, pid, at)]
    requires t'.fills == if o.status.Filled? then t.fills + [FillOf(id, o, at)] else t.fills
    ensures ViewOf(t', id) == Inserted(id, o, pid, at)
  {
    FillsForPush(t.fills, FillOf(id, o, at), id);
  }

  lemma CreateInserts(w: Work, id: string, o: Order, proposal: Option<string>, at: int)
    requires Create(w, id, o, proposal, at).Some? && ViewOf(w.tables, id).fills == []
    ensures var w' := Create(w, id, o, proposal, at).value;
      id in w'.proposals && ViewOf(w'.tables, id) == Inserted(id, o, w'.proposals[id], at)
  {
    CreateStages(w, id, o, proposal, at);
    var w' := Create(w, id, o, proposal, at).value;
    InsertedView(w.tables, w'.tables, id, o, w'.proposals[id], at);
  }

  ghost predicate InsertedAt(w0: Work, w: Work, id: string, o: Order, at: int) {
    && ViewOf(w0.tables, id).row.None?
    && id in w.proposals && w.proposals[id] != ""
    && ViewOf(w.tables, id) == Inserted(id, o, w.proposals[id], at)
  }

  lemma {:induction false} CreateAllIsLocal(w: Work, ids: seq<string>, oms: Oms, m: Mirror,
                                            proposal: Option<string>, at: int, id: string)
    requires Distinct(ids) && forall x :: x in ids ==> x in oms.orders
    requires CreateAll(w, ids, oms, m, proposal, at).Some? && w.proposals == map[]
    requires ViewOf(w.tables, id).row.None? ==> ViewOf(w.tables, id).fills == []
    ensures var w' := CreateAll(w, ids, oms, m, proposal, at).value;
      if id in ids && id !in m.statuses then InsertedAt(w, w', id, oms.orders[id], at)
      else ViewOf(w'.tables, id) == ViewOf(w.tables, id) && id !in w'.proposals
  {
    if ids != [] {
      var before, last := ids[..|ids| - 1], ids[|ids| - 1];
      CreateAllIsLocal(w, before, oms, m, proposal, at, id);
      assert ids == before + [last] && last !in before;
      if last !in m.statuses {
        var w1, o := CreateAll(w, before, oms, m, proposal, at).value, oms.orders[last];
        CreateStages(w1, last, o, proposal, at);
        if id == last {
          CreateInserts(w1, last, o, proposal, at);
        } else {
          CreateLeavesOthers(w1, last, o, proposal, at, id);
        }
      }
    }
  }

  lemma CreateStaged(w0: Work, w: Work, id: string, oms: Oms, m: Mirror, proposal: Option<string>, at: int,
                     done: set<string>)
    requires id in oms.orders && Create(w, id, oms.orders[id], proposal, at).Some? && Staged(w0, w, done, oms, m)
    ensures Staged(w0, Create(w, id, oms.orders[id], proposal, at).value, done + {id}, oms, m)
  {
  }

  lemma UnknownPush(before: seq<string>, last: string, m: Mirror)
    ensures Unknown(before + [last], m) == Unknown(before, m) + if last in m.statuses then {} else {last}
  {
  }

  lemma {:induction false} CreateAllStages(w0: Work, w: Work, ids: seq<string>, oms: Oms, m: Mirror,
                                           proposal: Option<string>, at: int, done: set<string>)
    requires forall x :: x in ids ==> x in oms.orders
    requires CreateAll(w, ids, oms, m, proposal, at).Some? && Staged(w0, w, done, oms, m)
    ensures Staged(w0, CreateAll(w, ids, oms, m, proposal, at).value, done + Unknown(ids, m), oms, m)
  {
    if ids == [] {
      assert done + Unknown(ids, m) == done;
    } else {
      var before, last := ids[..|ids| - 1], ids[|ids| - 1];
      assert ids == before + [last];
      CreateAllStages(w0, w, before, oms, m, proposal, at, done);
      UnknownPush(before, last, m);
      if last in m.statuses {
        assert done + Unknown(ids, m) == done + Unknown(before, m);
      } else {
        CreateStaged(w0, CreateAll(w, before, oms, m, proposal, at).value, last, oms, m, proposal, at,
                     done + Unknown(before, m));
        assert done + Unknown(ids, m) == done + Unknown(before, m) + {last};
      }
    }
  }
}
