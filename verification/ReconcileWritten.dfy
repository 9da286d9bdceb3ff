/**
 Reconciliation written out over the cost rows and the gateway's records: the class of
 each row, every discrepancy, and when a run passes.
 */
module ReconcileWritten {
  import opened Wrappers
  import opened Billing
  import opened BillingStore
  import opened BillingRuns
  import opened Reconcile

  /** The gateway recorded the row's own call. */
  predicate IsOf(m: Metering, r: CostRow) {
    r.request == Some(m.request)
  }

  ghost predicate UniqueIds(metering: seq<Metering>) {
    forall a, b :: a in metering && b in metering && a.request == b.request ==> a == b
  }

  /** A row that promises equality with the gateway: it names its call and is not estimated. */
  predicate Promises(r: CostRow) {
    r.request.Some? && !r.estimated
  }

  ghost predicate HasRecord(r: CostRow, metering: seq<Metering>) {
    exists m :: m in metering && IsOf(m, r)
  }

  ghost predicate HasOwnRecord(r: CostRow, metering: seq<Metering>) {
    exists m :: m in metering && IsOf(m, r) && m.strategy == r.strategy
  }

  lemma RecordExactly(r: CostRow, metering: seq<Metering>)
    requires UniqueIds(metering)
    ensures Record(r, metering).Some? <==> Promises(r) && HasRecord(r, metering)
    ensures forall m :: m in metering && IsOf(m, r) && Promises(r) ==> Record(r, metering) == Some(m)
    ensures Record(r, metering).Some? ==> Record(r, metering).value in metering && IsOf(Record(r, metering).value, r)
  {
  }

  /** A row is unattributed without a call, estimated if it says so, matched by its own strategy's record, else an orphan. */
  lemma ClassExactly(r: CostRow, metering: seq<Metering>)
    requires UniqueIds(metering)
    ensures ClassOf(r, metering).Unattributed? <==> r.request.None?
    ensures ClassOf(r, metering).Estimated? <==> r.request.Some? && r.estimated
    ensures ClassOf(r, metering).Matched? <==> Promises(r) && HasOwnRecord(r, metering)
    ensures ClassOf(r, metering).Orphan? <==> Promises(r) && !HasOwnRecord(r, metering)
  {
    RecordExactly(r, metering);
  }

  /** The rows of one class, in order. */
  function OfClass(rows: seq<CostRow>, metering: seq<Metering>, c: Class): (r: seq<CostRow>)
    ensures forall x :: x in r <==> x in rows && ClassOf(x, metering) == c
  {
    if rows == [] then []
    else
      var rest, last := OfClass(rows[..|rows| - 1], metering, c), rows[|rows| - 1];
      if ClassOf(last, metering) == c then rest + [last] else rest
  }

  /** A class sum is the cost of the rows of the class, and the matched count their number. */
  lemma {:induction false} SumsAreOfTheirRows(rows: seq<CostRow>, metering: seq<Metering>, c: Class)
    ensures SumIn(rows, metering, c) == SumCost(OfClass(rows, metering, c))
    ensures CountMatched(rows, metering) == |OfClass(rows, metering, Matched)|
  {
    if rows != [] {
      var before, last := rows[..|rows| - 1], rows[|rows| - 1];
      SumsAreOfTheirRows(before, metering, c);
      var kept := OfClass(before, metering, c);
      assert (kept + [last])[..|kept|] == kept;
    }
  }

  // ----- Discrepancies -----

  /** The discrepancy that a row and the gateway's records call for. */
  ghost predicate CallsFor(r: CostRow, metering: seq<Metering>, kind: Kind) {
    match kind
    case EstimatedClient => r.request.Some? && r.estimated
    case OrphanClient => Promises(r) && !HasRecord(r, metering)
    case AttributionMismatch => Promises(r) && exists m :: m in metering && IsOf(m, r) && m.strategy != r.strategy
    case MismatchTokens =>
      Promises(r) && exists m :: m in metering && IsOf(m, r) && m.strategy == r.strategy
                                 && (m.input != r.input || m.output != r.output)
    case MismatchCost =>
      Promises(r) && exists m :: m in metering && IsOf(m, r) && m.strategy == r.strategy && m.cost != r.cost
    case OrphanGateway => false
  }

  /** One row raises exactly the discrepancies it calls for, under its own call and strategy. */
  lemma FoundExactly(r: CostRow, metering: seq<Metering>, d: Discrepancy)
    requires UniqueIds(metering)
    ensures d in Found(r, metering)
            <==> CallsFor(r, metering, d.kind) && r.request == Some(d.request) && r.strategy == d.strategy
  {
    RecordExactly(r, metering);
    ClassExactly(r, metering);
    if Record(r, metering).Some? {
      var m := Record(r, metering).value;
      assert m in metering && IsOf(m, r);
    }
  }

  lemma {:induction false} AllFoundExactly(rows: seq<CostRow>, metering: seq<Metering>, d: Discrepancy)
    requires UniqueIds(metering)
    ensures d in AllFound(rows, metering)
            <==> exists r :: r in rows && CallsFor(r, metering, d.kind)
                             && r.request == Some(d.request) && r.strategy == d.strategy
  {
    if rows != [] {
      var before, last := rows[..|rows| - 1], rows[|rows| - 1];
      AllFoundExactly(before, metering, d);
      FoundExactly(last, metering, d);
      assert forall r :: r in rows <==> r in before || r == last;
    }
  }

  /** The tenant's record of the month that no row of the close answers for. */
  ghost predicate Unanswered(m: Metering, rows: seq<CostRow>, strategies: map<string, string>,
                             tenant: string, period: string)
  {
    && m.strategy in strategies && strategies[m.strategy] == tenant && m.day.month == period
    && !exists r :: r in rows && Promises(r) && IsOf(m, r) && r.strategy == m.strategy
  }

  lemma AnsweredExactly(m: Metering, rows: seq<CostRow>, metering: seq<Metering>)
    requires UniqueIds(metering) && m in metering
    ensures m.request in MatchedIds(rows, metering)
            <==> exists r :: r in rows && Promises(r) && IsOf(m, r) && r.strategy == m.strategy
  {
    if m.request in MatchedIds(rows, metering) {
      var r :| r in rows && ClassOf(r, metering).Matched? && r.request.value == m.request;
      ClassExactly(r, metering);
      assert IsOf(m, r);
    }
    if r :| r in rows && Promises(r) && IsOf(m, r) && r.strategy == m.strategy {
      ClassExactly(r, metering);
    }
  }

  lemma {:induction false} OrphansAmong(metering: seq<Metering>, strategies: map<string, string>, tenant: string,
                                        period: string, ids: set<string>, d: Discrepancy)
    ensures d in OrphansOf(metering, strategies, tenant, period, ids)
            <==> exists m :: && m in metering && m.strategy in strategies && strategies[m.strategy] == tenant
                             && m.day.month == period && m.request !in ids
                             && d == Discrepancy(OrphanGateway, m.request, m.strategy)
  {
    if metering != [] {
      var before, last := metering[..|metering| - 1], metering[|metering| - 1];
      OrphansAmong(before, strategies, tenant, period, ids, d);
      assert forall m :: m in metering <==> m in before || m == last;
    }
  }

  /** A run lists a gateway orphan exactly for each record of the tenant's month that no row answers for. */
  lemma OrphansExactly(rows: seq<CostRow>, metering: seq<Metering>, strategies: map<string, string>,
                       tenant: string, period: string, d: Discrepancy)
    requires UniqueIds(metering)
    ensures d in OrphansOf(metering, strategies, tenant, period, MatchedIds(rows, metering))
            <==> exists m :: m in metering && Unanswered(m, rows, strategies, tenant, period)
                             && d == Discrepancy(OrphanGateway, m.request, m.strategy)
  {
    OrphansAmong(metering, strategies, tenant, period, MatchedIds(rows, metering), d);
    forall m | m in metering
      ensures m.request in MatchedIds(rows, metering)
              <==> exists r :: r in rows && Promises(r) && IsOf(m, r) && r.strategy == m.strategy
    {
      AnsweredExactly(m, rows, metering);
    }
  }

  // ----- The pass flag -----

  /** The gateway's record of the row names another strategy or other tokens. */
  predicate Contradicts(m: Metering, r: CostRow) {
    IsOf(m, r) && Promises(r) && (m.strategy != r.strategy || m.input != r.input || m.output != r.output)
  }

  lemma NoneDisagrees(rows: seq<CostRow>, metering: seq<Metering>)
    requires UniqueIds(metering)
    ensures (forall k :: 0 <= k < |rows| ==> !Disagrees(rows[k], metering))
            <==> !exists row, m :: row in rows && m in metering && Contradicts(m, row)
  {
    forall row | row in rows
      ensures Disagrees(row, metering) <==> exists m :: m in metering && Contradicts(m, row)
    {
      RecordExactly(row, metering);
    }
    if row, m :| row in rows && m in metering && Contradicts(m, row) {
      var k :| 0 <= k < |rows| && rows[k] == row;
      assert Disagrees(rows[k], metering);
    }
  }

  /** In every run a report passes exactly when no record contradicts a row of the close. */
  lemma PassesExactly(ops: seq<Op>, metering: seq<Metering>, tenant: string, period: string, r: Outcome)
    requires Possible(ops) && UniqueIds(metering)
    requires var db := RunOf(ops);
      var i, j := FindPeriod(db.periods, tenant, period), FindInvoice(db.invoices, tenant, period);
      && i.Some? && j.Some?
      && Reports(r, tenant, period, BilledRows(db, i.value), metering, db.strategies, db.invoices[j.value].total)
    ensures var db := RunOf(ops); var rows := BilledRows(db, FindPeriod(db.periods, tenant, period).value);
      r.run.pass <==> !exists row, m :: row in rows && m in metering && Contradicts(m, row)
  {
    ReconcilesItsClose(ops, metering, tenant, period, r);
    var db := RunOf(ops);
    NoneDisagrees(BilledRows(db, FindPeriod(db.periods, tenant, period).value), metering);
  }
}
