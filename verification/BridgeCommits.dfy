/**
 When a persisting transaction commits, where a new order's proposal comes from,
 and what a restart gives back.
 */
module BridgeCommits {
  import opened Wrappers
  import opened BridgeTables
  import opened BridgeOrders
  import opened BridgeRuns

  // ----- When a transaction commits -----

  lemma {:induction false} SettleAllCommits(w: Work, ids: seq<string>, oms: Oms, m: Mirror, at: int)
    requires forall x :: x in ids ==> x in oms.orders
    requires forall x :: x in m.statuses ==> x in w.tables.orders
    ensures var s := SettleAll(w, ids, oms, m, at);
      s.Some? && s.value.tables.orders.Keys == w.tables.orders.Keys
  {
    if ids != [] {
      SettleAllCommits(w, ids[..|ids| - 1], oms, m, at);
    }
  }

  predicate Insertable(w: Work, id: string, oms: Oms, m: Mirror, proposal: Option<string>)
    requires id in oms.orders
  {
    id in m.statuses || (id !in w.tables.orders && ProposalFor(w, oms.orders[id], proposal) != "")
  }

  lemma CreateCommits(w: Work, id: string, o: Order, proposal: Option<string>, at: int)
    ensures var c := Create(w, id, o, proposal, at);
      && (c.Some? <==> id !in w.tables.orders && ProposalFor(w, o, proposal) != "")
      && (c.Some? ==> c.value.entryFills == w.entryFills
                      && c.value.tables.orders.Keys == w.tables.orders.Keys + {id})
  {
  }

  lemma {:induction false} CreateAllCommits(w: Work, ids: seq<string>, oms: Oms, m: Mirror,
                                            proposal: Option<string>, at: int)
    requires Distinct(ids) && forall x :: x in ids ==> x in oms.orders
    ensures var c := CreateAll(w, ids, oms, m, proposal, at);
      && (c.Some? <==> forall id :: id in ids ==> Insertable(w, id, oms, m, proposal))
      && (c.Some? ==> c.value.entryFills == w.entryFills
                      && c.value.tables.orders.Keys == w.tables.orders.Keys + Unknown(ids, m))
  {
    if ids == [] {
      assert w.tables.orders.Keys == w.tables.orders.Keys + Unknown(ids, m);
    } else {
      var before, last := ids[..|ids| - 1], ids[|ids| - 1];
      CreateAllCommits(w, before, oms, m, proposal, at);
      assert ids == before + [last] && last !in before;
      UnknownPush(before, last, m);
      var c := CreateAll(w, before, oms, m, proposal, at);
      if c.Some? && last !in m.statuses {
        CreateCommits(c.value, last, oms.orders[last], proposal, at);
      }
    }
  }

  /** The entry order whose fill a new order's proposal is inherited from. */
  ghost predicate InheritedFrom(r: Run, key: Key, pid: string, id: string) {
    && id in r.oms.orders && id in r.m.statuses && r.m.statuses[id].Open? && r.oms.orders[id].status.Filled?
    && r.oms.orders[id].terms.cls == "ENTRY" && r.oms.orders[id].terms.key == key
    && id in r.m.proposals && pid == r.m.proposals[id]
  }

  lemma {:induction false} EntryFillsFromEntries(r: Run, w: Work, ids: seq<string>, at: int, key: Key)
    requires forall x :: x in ids ==> x in r.oms.orders
    requires OrdersInv(r) && w.entryFills == map[]
    requires SettleAll(w, ids, r.oms, r.m, at).Some?
    ensures var fills := SettleAll(w, ids, r.oms, r.m, at).value.entryFills;
      && (key in fills ==> exists id :: id in ids && InheritedFrom(r, key, fills[key], id))
      && (key !in fills ==> forall id :: id in ids && id in r.m.proposals ==>
            !InheritedFrom(r, key, r.m.proposals[id], id))
  {
    if ids != [] {
      var before, last := ids[..|ids| - 1], ids[|ids| - 1];
      EntryFillsFromEntries(r, w, before, at, key);
      assert ids == before + [last];
      assert OrderInv(r.t, r.m, r.oms, last);
      if last in r.m.statuses {
        assert Mirrors(ViewOf(r.t, last), r.oms.orders[last], r.m.statuses[last], r.m.proposals[last]);
      }
      var was := SettleAll(w, before, r.oms, r.m, at).value.entryFills;
      var fills := SettleAll(w, ids, r.oms, r.m, at).value.entryFills;
      if key in fills {
        if key in was && fills[key] == was[key] {
          var id :| id in before && InheritedFrom(r, key, was[key], id);
          assert id in ids;
        } else {
          assert InheritedFrom(r, key, fills[key], last);
        }
      }
    }
  }

  /** A new order can be persisted: its id is free and a proposal stands behind it. */
  ghost predicate Backed(r: Run, id: string, proposal: Option<string>) {
    && id in r.oms.orders && id !in r.t.orders
    && (if proposal.Some? then proposal.value != ""
        else exists e :: id in r.oms.orders && e in r.m.proposals
                         && InheritedFrom(r, r.oms.orders[id].terms.key, r.m.proposals[e], e))
  }

  /**
   A transaction commits exactly when every new order has a free id and either the
   submission's proposal or an entry of its book that fills in the same diff.
   */
  lemma CommitsWhenBacked(r: Run, capital: real, proposal: Option<string>, at: int)
    requires OrdersInv(r)
    ensures Persist(r.t, r.m, r.oms, capital, proposal, at).Some?
            <==> forall id :: id in r.oms.orders && id !in r.m.statuses ==> Backed(r, id, proposal)
  {
    var ids := ById(r.oms.orders.Keys);
    var w0 := Work(r.t, map[], map[], {}, map[]);
    forall x | x in r.m.statuses
      ensures x in r.t.orders
    {
      assert OrderInv(r.t, r.m, r.oms, x);
    }
    SettleAllCommits(w0, ids, r.oms, r.m, at);
    var w := SettleAll(w0, ids, r.oms, r.m, at).value;
    CreateAllCommits(w, ids, r.oms, r.m, proposal, at);
    forall id | id in r.oms.orders && id !in r.m.statuses
      ensures Insertable(w, id, r.oms, r.m, proposal) <==> Backed(r, id, proposal)
    {
      BackedIsInsertable(r, w0, ids, proposal, at, id);
    }
  }

  lemma BackedIsInsertable(r: Run, w0: Work, ids: seq<string>, proposal: Option<string>, at: int, id: string)
    requires OrdersInv(r) && w0 == Work(r.t, map[], map[], {}, map[])
    requires forall x :: x in ids <==> x in r.oms.orders
    requires var s := SettleAll(w0, ids, r.oms, r.m, at);
      s.Some? && s.value.tables.orders.Keys == r.t.orders.Keys
    requires id in r.oms.orders && id !in r.m.statuses
    ensures Insertable(SettleAll(w0, ids, r.oms, r.m, at).value, id, r.oms, r.m, proposal)
            <==> Backed(r, id, proposal)
  {
    var w, key := SettleAll(w0, ids, r.oms, r.m, at).value, r.oms.orders[id].terms.key;
    EntryFillsFromEntries(r, w0, ids, at, key);
    if proposal.None? && key in w.entryFills {
      var e :| e in ids && InheritedFrom(r, key, w.entryFills[key], e);
      assert OrderInv(r.t, r.m, r.oms, e);
    }
  }

  lemma {:induction false} CreateAllProposals(w: Work, ids: seq<string>, oms: Oms, m: Mirror,
                                              proposal: Option<string>, at: int, id: string)
    requires Distinct(ids) && forall x :: x in ids ==> x in oms.orders
    requires CreateAll(w, ids, oms, m, proposal, at).Some? && id in ids && id !in m.statuses
    ensures var c := CreateAll(w, ids, oms, m, proposal, at).value;
      id in c.proposals && c.proposals[id] == ProposalFor(w, oms.orders[id], proposal)
  {
    var before, last := ids[..|ids| - 1], ids[|ids| - 1];
    assert ids == before + [last];
    CreateAllCommits(w, before, oms, m, proposal, at);
    if id == last {
      CreateStages(CreateAll(w, before, oms, m, proposal, at).value, last, oms.orders[last], proposal, at);
    } else {
      CreateAllProposals(w, before, oms, m, proposal, at, id);
    }
  }

  /**
   Every order is stored under its origin: the submission in flight, or, for one that a
   sweep created, an entry of the same strategy and symbol that filled in the same diff.
   */
  lemma NewOrderHasItsOrigin(r: Run, proposal: Option<string>, at: int, id: string)
    requires OrdersInv(r) && id in r.oms.orders && id !in r.m.statuses
    ensures var w := Orders(r.t, r.m, r.oms, proposal, at);
      w.Some? ==> id in w.value.tables.orders && Originates(r, proposal, id, w.value.tables.orders[id].proposal)
  {
    if Orders(r.t, r.m, r.oms, proposal, at).Some? {
      var ids := ById(r.oms.orders.Keys);
      var w0 := Work(r.t, map[], map[], {}, map[]);
      OrdersUnfold(r, proposal, at);
      assert OrderInv(r.t, r.m, r.oms, id);
      PassedAt(r, proposal, at, id);
      EntryFillsFromEntries(r, w0, ids, at, r.oms.orders[id].terms.key);
      CreateAllProposals(SettleAll(w0, ids, r.oms, r.m, at).value, ids, r.oms, r.m, proposal, at, id);
      assert ViewOf(Orders(r.t, r.m, r.oms, proposal, at).value.tables, id).row.Some?;
    }
  }

  /** The submission's proposal, or that of an entry of the order's book filling in this diff. */
  ghost predicate Originates(r: Run, proposal: Option<string>, id: string, pid: string)
    requires id in r.oms.orders
  {
    if proposal.Some? then pid == proposal.value
    else exists e :: InheritedFrom(r, r.oms.orders[id].terms.key, pid, e)
  }

  // ----- Restarts -----

  predicate NoNegativePrice(t: Terms) {
    t.limit >= 0.0 && t.stop >= 0.0 && t.take >= 0.0
  }

  /** A row gives an order's terms back exactly when no price was negative. */
  lemma TermsRoundTrip(o: Order, pid: string, at: int)
    ensures TermsOf(RowOf(o, pid, at)) == o.terms <==> NoNegativePrice(o.terms)
  {
    DecOptDec(o.terms.limit);
    DecOptDec(o.terms.stop);
    DecOptDec(o.terms.take);
  }

  lemma KeptTermsRoundTrip(row: OrderRow, t: Terms)
    requires Keeps(row, t)
    ensures TermsOf(row) == t <==> NoNegativePrice(t)
  {
    DecOptDec(t.limit);
    DecOptDec(t.stop);
    DecOptDec(t.take);
  }

  /**
   A restart after a commit is lossless: the same books, the same open orders, each
   under its own terms and without a fill, and the same proposal behind each.
   */
  lemma RestartIsLossless(capital: real, steps: seq<Step>, proposal: Option<string>, at: int)
    requires Possible(capital, steps)
    requires var r := RunOf(capital, steps); Persist(r.t, r.m, r.oms, capital, proposal, at).Some?
    ensures var r := Persisted(RunOf(capital, steps), capital, proposal, at);
      var r' := Next(r, capital, Restart);
      && r'.oms.books == r.oms.books && r'.t == r.t
      && (forall id :: id in r'.oms.orders <==> id in r.oms.orders && r.oms.orders[id].status.Open?)
      && (forall id :: id in r'.oms.orders ==> Same(r, r', id))
  {
    var r0 := RunOf(capital, steps);
    RunsKeepInv(capital, steps);
    CommitAligns(r0, capital, proposal, at);
    var r := Persisted(r0, capital, proposal, at);
    forall id
      ensures id in OpenIds(r.t) <==> id in r.oms.orders && r.oms.orders[id].status.Open?
      ensures id in OpenIds(r.t) ==> Same(r, Next(r, capital, Restart), id)
    {
      assert OrderInv(r.t, r.m, r.oms, id);
      assert ViewOf(r.t, id).row == if id in r.t.orders then Some(r.t.orders[id]) else None;
      if id in OpenIds(r.t) {
        RearmsOne(r.t, id);
        KeptTermsRoundTrip(r.t.orders[id], r.oms.orders[id].terms);
      }
    }
  }

  ghost predicate Same(r: Run, r': Run, id: string) {
    && id in r.oms.orders && id in r'.oms.orders
    && id in r.m.proposals && id in r'.m.proposals && r'.m.proposals[id] == r.m.proposals[id]
    && r'.oms.orders[id].status == r.oms.orders[id].status
    && r'.oms.orders[id].price == 0.0 && r'.oms.orders[id].fee == 0.0
    && id in r.t.orders && r'.oms.orders[id].qty == r.t.orders[id].qty
    && (NoNegativePrice(r.oms.orders[id].terms) <==> r'.oms.orders[id].terms == r.oms.orders[id].terms)
  }

  /**
   The rule that a filled order is final is needed: the writer itself has no guard,
   so an order reopened and filled again is booked twice.
   */
  lemma ReopenedOrderBooksTwice(v: View, id: string, open: Order, filled: Order, pid: string, at: int)
    requires OneFill(v) && Mirrors(v, filled, Filled, pid)
    requires open == filled.(status := Open) && filled.status.Filled?
    ensures var v1 := Settled(v, id, open, Filled, at);
      var v2 := Settled(v1, id, filled, Open, at);
      v1 == v && |v2.fills| == 2 && !OneFill(v2)
  {
  }
}
