/**
 The billing tables: append-only cost rows, closed periods with their row-id
 watermarks, and invoices. `Apply` is one transaction as a function on the tables.
 */
module BillingStore {
  import opened Billing

  datatype Db = Db(tenants: set<string>, strategies: map<string, string>, costs: seq<CostRow>,
                   periods: seq<Period>, invoices: seq<Invoice>)

  const EMPTY := Db({}, map[], [], [], [])

  predicate Digit(c: char) {
    '0' <= c <= '9'
  }

  /** A calendar month, YYYY-MM. */
  predicate ValidPeriod(p: string) {
    && |p| == 7 && p[4] == '-' && (forall i :: 0 <= i < 7 && i != 4 ==> Digit(p[i]))
    && (if p[5] == '0' then p[6] != '0' else p[5] == '1' && p[6] <= '2')
  }

  /** The row's strategy belongs to the tenant. */
  predicate Owned(strategies: map<string, string>, r: CostRow, tenant: string) {
    r.strategy in strategies && strategies[r.strategy] == tenant
  }

  /** Positions of the tenant's rows with lo < row id <= hi, in row-id order. */
  function Positions(costs: seq<CostRow>, strategies: map<string, string>, tenant: string,
                     lo: nat, hi: nat): (ids: seq<nat>)
    requires hi <= |costs|
    ensures forall k :: k in ids <==> lo <= k < hi && Owned(strategies, costs[k], tenant)
    ensures forall i :: 0 <= i < |ids| ==> lo <= ids[i] < hi
    ensures forall i, j :: 0 <= i < j < |ids| ==> ids[i] < ids[j]
  {
    if hi <= lo then []
    else
      var rest := Positions(costs, strategies, tenant, lo, hi - 1);
      if Owned(strategies, costs[hi - 1], tenant) then rest + [hi - 1] else rest
  }

  function RowsAt(costs: seq<CostRow>, ids: seq<nat>): (rows: seq<CostRow>)
    requires forall i :: 0 <= i < |ids| ==> ids[i] < |costs|
  {
    if ids == [] then [] else RowsAt(costs, ids[..|ids| - 1]) + [costs[ids[|ids| - 1]]]
  }

  /** The billable rows of a window; row ids above the last row select nothing. */
  function WindowRows(costs: seq<CostRow>, strategies: map<string, string>, tenant: string,
                      lo: nat, hi: nat): seq<CostRow> {
    RowsAt(costs, Positions(costs, strategies, tenant, lo, if hi <= |costs| then hi else |costs|))
  }

  /** MAX(watermark) over the tenant's first n closes; 0 when there is none. */
  function Mark(periods: seq<Period>, tenant: string, n: nat): (m: nat)
    requires n <= |periods|
    ensures forall i :: 0 <= i < n && periods[i].tenant == tenant ==> periods[i].watermark <= m
    ensures m > 0 ==> exists i :: 0 <= i < n && periods[i].tenant == tenant && periods[i].watermark == m
  {
    if n == 0 then 0
    else
      var rest, last := Mark(periods, tenant, n - 1), periods[n - 1];
      if last.tenant == tenant && last.watermark > rest then last.watermark else rest
  }

  predicate IsClosed(periods: seq<Period>, tenant: string, period: string) {
    exists i :: 0 <= i < |periods| && periods[i].tenant == tenant && periods[i].period == period
  }

  datatype Op =
    | AddTenant(tenant: string)
    | AddStrategy(id: string, tenant: string)
    | InsertCosts(rows: seq<CostRow>)
    | ClosePeriod(tenant: string, period: string)

  datatype Answer = Done | Billed(invoice: Invoice) | Invalid | NotFound | Constraint | PeriodClosed

  function ApplyClose(db: Db, tenant: string, period: string): (Db, Answer) {
    if !ValidPeriod(period) then (db, Invalid)
    else if tenant !in db.tenants then (db, NotFound)
    else if IsClosed(db.periods, tenant, period) then (db, PeriodClosed)
    else
      var watermark, prev := |db.costs|, Mark(db.periods, tenant, |db.periods|);
      var rows := WindowRows(db.costs, db.strategies, tenant, prev, watermark);
      var invoice := InvoiceOf(tenant, period, rows);
      (db.(periods := db.periods + [Period(tenant, period, watermark)],
           invoices := db.invoices + [invoice]), Billed(invoice))
  }

  function Apply(db: Db, op: Op): (Db, Answer) {
    match op
    case AddTenant(tenant) => (db.(tenants := db.tenants + {tenant}), Done)
    case AddStrategy(id, tenant) =>
      if id in db.strategies then (db, Constraint)
      else if tenant !in db.tenants then (db, NotFound)
      else (db.(strategies := db.strategies[id := tenant]), Done)
    case InsertCosts(rows) => (db.(costs := db.costs + rows), Done)
    case ClosePeriod(tenant, period) => ApplyClose(db, tenant, period)
  }

  class Store {
    var tenants: set<string>
    var strategies: map<string, string>
    var costs: seq<CostRow>
    var periods: seq<Period>
    var invoices: seq<Invoice>

    function Snapshot(): Db
      reads this
    {
      Db(tenants, strategies, costs, periods, invoices)
    }

    constructor ()
      ensures Snapshot() == EMPTY
    {
      tenants, strategies, costs, periods, invoices := {}, map[], [], [], [];
    }

    /** The cost rows of one trace, appended in one transaction. */
    method InsertModelCosts(rows: seq<CostRow>)
      modifies this`costs
      ensures Snapshot() == Apply(old(Snapshot()), InsertCosts(rows)).0
    {
      costs := costs + rows;
    }

    /** Bills the rows above the tenant's last watermark, in one transaction. */
    method Close(tenant: string, period: string) returns (r: Answer)
      modifies this`periods, this`invoices
      ensures (Snapshot(), r) == Apply(old(Snapshot()), ClosePeriod(tenant, period))
    {
      if !ValidPeriod(period) {
        return Invalid;
      }
      if tenant !in tenants {
        return NotFound;
      }
      if IsClosed(periods, tenant, period) {
        return PeriodClosed;
      }
      var watermark, prev := |costs|, Mark(periods, tenant, |periods|);
      var rows := WindowRows(costs, strategies, tenant, prev, watermark);
      var invoice := BuildInvoice(tenant, period, rows);
      periods := periods + [Period(tenant, period, watermark)];
      invoices := invoices + [invoice];
      r := Billed(invoice);
    }
  }
}
