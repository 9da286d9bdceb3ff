/**
 Runs of the billing store, in any interleaving of cost rows and closes and any
 calendar order of the closes.
 */
module BillingRuns {
  import opened Billing
  import opened BillingStore

  function RunOf(ops: seq<Op>): Db {
    if ops == [] then EMPTY else Apply(RunOf(ops[..|ops| - 1]), ops[|ops| - 1]).0
  }

  /** Cost rows come from traces of known strategies. */
  ghost predicate Known(db: Db, op: Op) {
    op.InsertCosts? ==> forall i :: 0 <= i < |op.rows| ==> op.rows[i].strategy in db.strategies
  }

  ghost predicate Possible(ops: seq<Op>) {
    ops == [] || (Possible(ops[..|ops| - 1]) && Known(RunOf(ops[..|ops| - 1]), ops[|ops| - 1]))
  }

  // ----- Windows do not change once closed -----

  lemma PositionsLast(costs: seq<CostRow>, strategies: map<string, string>, tenant: string, lo: nat, hi: nat)
    requires lo < hi <= |costs|
    ensures Positions(costs, strategies, tenant, lo, hi)
         == Positions(costs, strategies, tenant, lo, hi - 1)
            + if Owned(strategies, costs[hi - 1], tenant) then [hi - 1] else []
  {
    var rest := Positions(costs, strategies, tenant, lo, hi - 1);
    assert rest + [] == rest;
  }

  lemma {:induction false} PositionsStay(costs: seq<CostRow>, more: seq<CostRow>,
                                         strategies: map<string, string>, strategies': map<string, string>,
                                         tenant: string, lo: nat, hi: nat)
    requires hi <= |costs|
    requires forall k :: 0 <= k < |costs| ==> costs[k].strategy in strategies
    requires forall s :: s in strategies ==> s in strategies' && strategies'[s] == strategies[s]
    ensures Positions(costs + more, strategies', tenant, lo, hi) == Positions(costs, strategies, tenant, lo, hi)
  {
    if hi > lo {
      PositionsStay(costs, more, strategies, strategies', tenant, lo, hi - 1);
      assert (costs + more)[hi - 1] == costs[hi - 1];
      PositionsLast(costs, strategies, tenant, lo, hi);
      PositionsLast(costs + more, strategies', tenant, lo, hi);
    }
  }

  lemma {:induction false} RowsStay(costs: seq<CostRow>, more: seq<CostRow>, ids: seq<nat>)
    requires forall i :: 0 <= i < |ids| ==> ids[i] < |costs|
    ensures RowsAt(costs + more, ids) == RowsAt(costs, ids)
  {
    if ids != [] {
      RowsStay(costs, more, ids[..|ids| - 1]);
    }
  }

  ghost predicate Extends(db: Db, db': Db) {
    && |db.costs| <= |db'.costs| && db'.costs == db.costs + db'.costs[|db.costs|..]
    && forall s :: s in db.strategies ==> s in db'.strategies && db'.strategies[s] == db.strategies[s]
  }

  ghost predicate RowsKnown(db: Db) {
    forall k :: 0 <= k < |db.costs| ==> db.costs[k].strategy in db.strategies
  }

  lemma WindowStays(db: Db, db': Db, tenant: string, lo: nat, hi: nat)
    requires RowsKnown(db) && Extends(db, db') && hi <= |db.costs|
    ensures WindowRows(db'.costs, db'.strategies, tenant, lo, hi) == WindowRows(db.costs, db.strategies, tenant, lo, hi)
  {
    var more := db'.costs[|db.costs|..];
    PositionsStay(db.costs, more, db.strategies, db'.strategies, tenant, lo, hi);
    RowsStay(db.costs, more, Positions(db.costs, db.strategies, tenant, lo, hi));
  }

  // ----- The invariant -----

  ghost predicate Paired(db: Db) {
    && |db.invoices| == |db.periods|
    && forall i :: 0 <= i < |db.periods| ==>
         db.invoices[i].tenant == db.periods[i].tenant && db.invoices[i].period == db.periods[i].period
  }

  ghost predicate ClosedOnce(periods: seq<Period>) {
    forall i, j :: 0 <= i < j < |periods| && periods[i].tenant == periods[j].tenant ==>
      periods[i].period != periods[j].period
  }

  ghost predicate MarksRise(db: Db) {
    && (forall i, j :: 0 <= i < j < |db.periods| ==> db.periods[i].watermark <= db.periods[j].watermark)
    && (forall i :: 0 <= i < |db.periods| ==> db.periods[i].watermark <= |db.costs|)
  }

  /** The rows of the i-th close, read back from the tables as they are now. */
  function BilledRows(db: Db, i: nat): seq<CostRow>
    requires i < |db.periods|
  {
    var p := db.periods[i];
    WindowRows(db.costs, db.strategies, p.tenant, Mark(db.periods, p.tenant, i), p.watermark)
  }

  ghost predicate InvoiceAt(db: Db, i: nat) {
    && i < |db.periods| && i < |db.invoices| && db.periods[i].watermark <= |db.costs|
    && db.invoices[i] == InvoiceOf(db.periods[i].tenant, db.periods[i].period, BilledRows(db, i))
  }

  ghost predicate Inv(db: Db) {
    && RowsKnown(db) && Paired(db) && ClosedOnce(db.periods) && MarksRise(db)
    && forall i :: 0 <= i < |db.periods| ==> InvoiceAt(db, i)
  }

  lemma {:induction false} MarkPrefix(periods: seq<Period>, more: seq<Period>, tenant: string, n: nat)
    requires n <= |periods|
    ensures Mark(periods + more, tenant, n) == Mark(periods, tenant, n)
  {
    if n > 0 {
      MarkPrefix(periods, more, tenant, n - 1);
    }
  }

  lemma InvoiceStays(db: Db, db': Db, i: nat)
    requires InvoiceAt(db, i) && RowsKnown(db) && Extends(db, db')
    requires exists ps :: db'.periods == db.periods + ps
    requires exists vs :: db'.invoices == db.invoices + vs
    ensures InvoiceAt(db', i)
  {
    var ps :| db'.periods == db.periods + ps;
    var p := db.periods[i];
    MarkPrefix(db.periods, ps, p.tenant, i);
    WindowStays(db, db', p.tenant, Mark(db.periods, p.tenant, i), p.watermark);
  }

  lemma ApplyExtends(db: Db, op: Op)
    ensures Extends(db, Apply(db, op).0)
  {
    var db' := Apply(db, op).0;
    if op.InsertCosts? {
      assert db'.costs[|db.costs|..] == op.rows;
    } else {
      assert db'.costs == db.costs && db.costs[|db.costs|..] == [];
    }
  }

  lemma CloseAppends(db: Db, tenant: string, period: string)
    requires ApplyClose(db, tenant, period).1.Billed?
    ensures var (db', answer) := ApplyClose(db, tenant, period);
      && answer.invoice.tenant == tenant && answer.invoice.period == period
      && db'.periods == db.periods + [Period(tenant, period, |db.costs|)]
      && db'.invoices == db.invoices + [answer.invoice]
      && db'.costs == db.costs && db'.strategies == db.strategies
      && !IsClosed(db.periods, tenant, period)
      && answer.invoice == InvoiceOf(tenant, period, WindowRows(db.costs, db.strategies, tenant,
                                                                Mark(db.periods, tenant, |db.periods|), |db.costs|))
  {
  }

  lemma AppendKeepsPeriods(db: Db, db': Db, p: Period, invoice: Invoice)
    requires Paired(db) && ClosedOnce(db.periods) && MarksRise(db) && !IsClosed(db.periods, p.tenant, p.period)
    requires invoice.tenant == p.tenant && invoice.period == p.period && p.watermark == |db.costs|
    requires db'.periods == db.periods + [p] && db'.invoices == db.invoices + [invoice] && db'.costs == db.costs
    ensures Paired(db') && ClosedOnce(db'.periods) && MarksRise(db')
  {
  }

  lemma CloseKeepsPeriods(db: Db, tenant: string, period: string)
    requires Inv(db) && ApplyClose(db, tenant, period).1.Billed?
    ensures var db' := ApplyClose(db, tenant, period).0;
      Paired(db') && ClosedOnce(db'.periods) && MarksRise(db') && RowsKnown(db')
  {
    CloseAppends(db, tenant, period);
    var (db', answer) := ApplyClose(db, tenant, period);
    AppendKeepsPeriods(db, db', Period(tenant, period, |db.costs|), answer.invoice);
  }

  lemma CloseBillsItsWindow(db: Db, tenant: string, period: string)
    requires ApplyClose(db, tenant, period).1.Billed? && Paired(db)
    ensures InvoiceAt(ApplyClose(db, tenant, period).0, |db.periods|)
  {
    CloseAppends(db, tenant, period);
    MarkPrefix(db.periods, [Period(tenant, period, |db.costs|)], tenant, |db.periods|);
  }

  lemma CloseKeepsInvoice(db: Db, tenant: string, period: string, i: nat)
    requires Inv(db) && ApplyClose(db, tenant, period).1.Billed? && i < |db.periods|
    ensures InvoiceAt(ApplyClose(db, tenant, period).0, i)
  {
    CloseAppends(db, tenant, period);
    ApplyExtends(db, ClosePeriod(tenant, period));
    InvoiceStays(db, ApplyClose(db, tenant, period).0, i);
  }

  lemma CloseKeeps(db: Db, tenant: string, period: string)
    requires Inv(db) && ApplyClose(db, tenant, period).1.Billed?
    ensures Inv(ApplyClose(db, tenant, period).0)
  {
    var db' := ApplyClose(db, tenant, period).0;
    CloseKeepsPeriods(db, tenant, period);
    forall i | 0 <= i < |db'.periods|
      ensures InvoiceAt(db', i)
    {
      if i < |db.periods| {
        CloseKeepsInvoice(db, tenant, period, i);
      } else {
        CloseBillsItsWindow(db, tenant, period);
      }
    }
  }

  lemma StepKeeps(db: Db, op: Op)
    requires Inv(db) && Known(db, op)
    ensures Inv(Apply(db, op).0)
  {
    var db' := Apply(db, op).0;
    ApplyExtends(db, op);
    if op.ClosePeriod? && Apply(db, op).1.Billed? {
      CloseKeeps(db, op.tenant, op.period);
    } else {
      assert db'.periods == db.periods + [] && db'.invoices == db.invoices + [];
      forall i | 0 <= i < |db'.periods|
        ensures InvoiceAt(db', i)
      {
        InvoiceStays(db, db', i);
      }
    }
  }

  /** In every run each stored invoice is the invoice of its own window, read back from the tables. */
  lemma {:induction false} InvoicesMatchTheirWindows(ops: seq<Op>)
    requires Possible(ops)
    ensures Inv(RunOf(ops))
  {
    if ops != [] {
      InvoicesMatchTheirWindows(ops[..|ops| - 1]);
      StepKeeps(RunOf(ops[..|ops| - 1]), ops[|ops| - 1]);
    }
  }

  // ----- Exactly once -----

  /** The i-th close bills the row at position k. */
  ghost predicate Bills(db: Db, i: int, k: nat) {
    && 0 <= i < |db.periods| && db.periods[i].watermark <= |db.costs|
    && k in Positions(db.costs, db.strategies, db.periods[i].tenant,
                      Mark(db.periods, db.periods[i].tenant, i), db.periods[i].watermark)
  }

  /** A tenant's windows follow each other without gap or overlap. */
  lemma WindowsAreConsecutive(db: Db, i: nat, j: nat)
    requires MarksRise(db) && i < j < |db.periods| && db.periods[i].tenant == db.periods[j].tenant
    requires forall m :: i < m < j ==> db.periods[m].tenant != db.periods[i].tenant
    ensures Mark(db.periods, db.periods[j].tenant, j) == db.periods[i].watermark
  {
    var m := Mark(db.periods, db.periods[j].tenant, j);
    if m > 0 {
      var w :| 0 <= w < j && db.periods[w].tenant == db.periods[j].tenant && db.periods[w].watermark == m;
      assert w <= i;
    }
  }

  lemma {:induction false} SomeCloseBills(db: Db, tenant: string, k: nat, n: nat) returns (i: nat)
    requires MarksRise(db) && n <= |db.periods| && k < Mark(db.periods, tenant, n)
    requires k < |db.costs| && Owned(db.strategies, db.costs[k], tenant)
    ensures i < n && db.periods[i].tenant == tenant && Bills(db, i, k)
  {
    if k < Mark(db.periods, tenant, n - 1) {
      i := SomeCloseBills(db, tenant, k, n - 1);
    } else {
      i := n - 1;
    }
  }

  lemma BilledUpToTheMark(db: Db, i: int, k: nat)
    requires Bills(db, i, k)
    ensures k < |db.costs| && Owned(db.strategies, db.costs[k], db.periods[i].tenant)
    ensures Mark(db.periods, db.periods[i].tenant, i) <= k < db.periods[i].watermark
    ensures k < Mark(db.periods, db.periods[i].tenant, |db.periods|)
  {
  }

  /** No two closes bill the same row. */
  lemma BilledAtMostOnce(db: Db, i: int, j: int, k: nat)
    requires Bills(db, i, k) && Bills(db, j, k)
    ensures i == j
  {
    BilledUpToTheMark(db, i, k);
    BilledUpToTheMark(db, j, k);
  }

  /**
   In every run a tenant's cost row is billed by exactly one close when it is at or
   below the tenant's last watermark, and by none above it.
   */
  lemma EachRowIsBilledOnce(ops: seq<Op>, k: nat)
    requires Possible(ops) && k < |RunOf(ops).costs|
    ensures var db := RunOf(ops); db.costs[k].strategy in db.strategies
    ensures var db := RunOf(ops); var tenant := db.strategies[db.costs[k].strategy];
      && ((exists i :: Bills(db, i, k)) <==> k < Mark(db.periods, tenant, |db.periods|))
      && forall i, j :: Bills(db, i, k) && Bills(db, j, k) ==> i == j
  {
    InvoicesMatchTheirWindows(ops);
    var db := RunOf(ops);
    var tenant := db.strategies[db.costs[k].strategy];
    if k < Mark(db.periods, tenant, |db.periods|) {
      var i := SomeCloseBills(db, tenant, k, |db.periods|);
    }
    if i :| Bills(db, i, k) {
      BilledUpToTheMark(db, i, k);
    }
    forall i, j | Bills(db, i, k) && Bills(db, j, k)
      ensures i == j
    {
      BilledAtMostOnce(db, i, j, k);
    }
  }

  // ----- Conservation -----

  ghost function Invoiced(db: Db, tenant: string, n: nat): real
    requires n <= |db.invoices|
  {
    if n == 0 then 0.0
    else Invoiced(db, tenant, n - 1) + if db.invoices[n - 1].tenant == tenant then db.invoices[n - 1].total else 0.0
  }

  lemma {:induction false} PositionsSplit(db: Db, tenant: string, lo: nat, mid: nat, hi: nat)
    requires lo <= mid <= hi <= |db.costs|
    ensures Positions(db.costs, db.strategies, tenant, lo, hi)
         == Positions(db.costs, db.strategies, tenant, lo, mid) + Positions(db.costs, db.strategies, tenant, mid, hi)
  {
    if mid < hi {
      PositionsSplit(db, tenant, lo, mid, hi - 1);
    }
  }

  lemma {:induction false} RowsJoin(costs: seq<CostRow>, a: seq<nat>, b: seq<nat>)
    requires forall i :: 0 <= i < |a| ==> a[i] < |costs|
    requires forall i :: 0 <= i < |b| ==> b[i] < |costs|
    ensures SumCost(RowsAt(costs, a + b)) == SumCost(RowsAt(costs, a)) + SumCost(RowsAt(costs, b))
  {
    if b == [] {
      assert a + b == a;
    } else {
      var before, last := b[..|b| - 1], b[|b| - 1];
      RowsJoin(costs, a, before);
      assert (a + b)[..|a + b| - 1] == a + before;
      SumCostPush(RowsAt(costs, a + before), costs[last]);
      SumCostPush(RowsAt(costs, before), costs[last]);
    }
  }

  lemma SumCostPush(rows: seq<CostRow>, r: CostRow)
    ensures SumCost(rows + [r]) == SumCost(rows) + r.cost
  {
    assert (rows + [r])[..|rows|] == rows;
  }

  lemma {:induction false} InvoicedUpTo(db: Db, tenant: string, n: nat)
    requires Inv(db) && n <= |db.periods| && Mark(db.periods, tenant, n) <= |db.costs|
    ensures Invoiced(db, tenant, n)
         == SumCost(WindowRows(db.costs, db.strategies, tenant, 0, Mark(db.periods, tenant, n)))
  {
    if n > 0 {
      var p, lo := db.periods[n - 1], Mark(db.periods, tenant, n - 1);
      InvoicedUpTo(db, tenant, n - 1);
      if p.tenant == tenant {
        assert InvoiceAt(db, n - 1);
        InvoiceTotalIsExact(tenant, p.period, BilledRows(db, n - 1));
        MarkIsLast(db, tenant, n);
        PositionsSplit(db, tenant, 0, lo, p.watermark);
        RowsJoin(db.costs, Positions(db.costs, db.strategies, tenant, 0, lo),
                 Positions(db.costs, db.strategies, tenant, lo, p.watermark));
      }
    }
  }

  /** A close's own watermark is the tenant's new mark. */
  lemma MarkIsLast(db: Db, tenant: string, n: nat)
    requires MarksRise(db) && 0 < n <= |db.periods| && db.periods[n - 1].tenant == tenant
    ensures Mark(db.periods, tenant, n) == db.periods[n - 1].watermark
    ensures Mark(db.periods, tenant, n - 1) <= db.periods[n - 1].watermark
  {
    var m := Mark(db.periods, tenant, n - 1);
    if m > 0 {
      var i :| 0 <= i < n - 1 && db.periods[i].tenant == tenant && db.periods[i].watermark == m;
    }
  }

  /** In every run a tenant's invoices add up to the cost of all its rows up to its last watermark. */
  lemma InvoicesAddUp(ops: seq<Op>, tenant: string)
    requires Possible(ops)
    ensures var db := RunOf(ops); var mark := Mark(db.periods, tenant, |db.periods|);
      && |db.invoices| == |db.periods| && mark <= |db.costs|
      && Invoiced(db, tenant, |db.invoices|) == SumCost(WindowRows(db.costs, db.strategies, tenant, 0, mark))
  {
    InvoicesMatchTheirWindows(ops);
    InvoicedUpTo(RunOf(ops), tenant, |RunOf(ops).periods|);
  }

  // ----- Why rows must come from known strategies -----

  lemma RunExtend(ops: seq<Op>, op: Op)
    ensures RunOf(ops + [op]) == Apply(RunOf(ops), op).0
  {
    assert (ops + [op])[..|ops|] == ops;
  }

  const MONTH := "2024-01"

  function Late(row: CostRow, strategies: map<string, string>): Db {
    Db({"t"}, strategies, [row], [Period("t", MONTH, 1)], [InvoiceOf("t", MONTH, [])])
  }

  lemma LateCloseIsEmpty(row: CostRow)
    ensures Apply(Db({"t"}, map[], [row], [], []), ClosePeriod("t", MONTH)).0 == Late(row, map[])
  {
    assert ValidPeriod(MONTH);
    assert Positions([row], map[], "t", 0, 0) == [];
    assert Positions([row], map[], "t", 0, 1) == [];
    assert WindowRows([row], map[], "t", 0, 1) == [];
    assert [] + [Period("t", MONTH, 1)] == [Period("t", MONTH, 1)];
    assert [] + [InvoiceOf("t", MONTH, [])] == [InvoiceOf("t", MONTH, [])];
  }

  lemma LateRowIsReadBack(row: CostRow)
    requires row.strategy == "s"
    ensures BilledRows(Late(row, map["s" := "t"]), 0) == [row]
    ensures SumCost([row]) == row.cost && InvoiceOf("t", MONTH, []).total == 0.0
  {
    var db := Late(row, map["s" := "t"]);
    assert Positions(db.costs, db.strategies, "t", 0, 0) == [];
    assert Positions(db.costs, db.strategies, "t", 0, 1) == [0];
    assert RowsAt(db.costs, [0][..0]) == [];
    InvoiceTotalIsExact("t", MONTH, []);
    assert [row][..0] == [];
  }

  /**
   The window joins the strategies table when it is read. A row whose strategy is
   created only after its close is in no invoice, and the window read back no
   longer adds up to the invoice.
   */
  lemma LateStrategyIsNotBilled(row: CostRow)
    requires row.strategy == "s" && row.cost != 0.0
    ensures var db := RunOf([AddTenant("t"), InsertCosts([row]), ClosePeriod("t", MONTH), AddStrategy("s", "t")]);
      && db == Late(row, map["s" := "t"]) && BilledRows(db, 0) == [row]
      && SumCost(BilledRows(db, 0)) != db.invoices[0].total
  {
    var a, b, c, d := AddTenant("t"), InsertCosts([row]), ClosePeriod("t", MONTH), AddStrategy("s", "t");
    LateRun(row, a, b, c);
    RunExtend([a, b, c], d);
    assert [a, b, c] + [d] == [a, b, c, d];
    assert Apply(Late(row, map[]), d).0 == Late(row, map["s" := "t"]);
    LateRowIsReadBack(row);
  }

  lemma LateInserted(row: CostRow, a: Op, b: Op)
    requires a == AddTenant("t") && b == InsertCosts([row])
    ensures RunOf([a, b]) == Db({"t"}, map[], [row], [], [])
  {
    RunExtend([], a);
    RunExtend([a], b);
    assert [] + [a] == [a] && [a] + [b] == [a, b];
    assert {} + {"t"} == {"t"} && [] + [row] == [row];
  }

  lemma LateRun(row: CostRow, a: Op, b: Op, c: Op)
    requires a == AddTenant("t") && b == InsertCosts([row]) && c == ClosePeriod("t", MONTH)
    ensures RunOf([a, b, c]) == Late(row, map[])
  {
    LateInserted(row, a, b);
    RunExtend([a, b], c);
    assert [a, b] + [c] == [a, b, c];
    LateCloseIsEmpty(row);
  }
}
