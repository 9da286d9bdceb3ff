/**
 Windows over every run of the billing tables, also runs in which cost rows name
 strategies the table does not have yet: exactly when a close reads back its own rows.
 */
module BillingWindows {
  import opened Billing
  import opened BillingStore
  import opened BillingRuns

  /** The c-th operation is the close that made period i. */
  ghost predicate ClosedBy(ops: seq<Op>, c: nat, i: nat) {
    && c < |ops| && ops[c].ClosePeriod?
    && |RunOf(ops[..c]).periods| == i && |RunOf(ops[..c + 1]).periods| == i + 1
  }

  lemma StepAdds(db: Db, op: Op)
    ensures var db' := Apply(db, op).0;
      || (db'.periods == db.periods && db'.invoices == db.invoices)
      || (op.ClosePeriod? && Apply(db, op).1.Billed?)
  {
  }

  ghost predicate Prefixes(a: Db, b: Db) {
    a.periods <= b.periods && a.invoices <= b.invoices && Extends(a, b)
  }

  lemma StepPrefixes(db: Db, op: Op)
    ensures Prefixes(db, Apply(db, op).0)
  {
    ApplyExtends(db, op);
    StepAdds(db, op);
    if op.ClosePeriod? && Apply(db, op).1.Billed? {
      CloseAppends(db, op.tenant, op.period);
    }
  }

  lemma PrefixesJoin(a: Db, b: Db, c: Db)
    requires Prefixes(a, b) && Prefixes(b, c)
    ensures Prefixes(a, c)
  {
    assert c.costs == a.costs + c.costs[|a.costs|..];
  }

  lemma {:induction false} RunPrefixes(ops: seq<Op>, n: nat)
    requires n <= |ops|
    ensures Prefixes(RunOf(ops[..n]), RunOf(ops))
    decreases |ops| - n
  {
    if n < |ops| {
      RunPrefixes(ops, n + 1);
      assert ops[..n + 1][..n] == ops[..n];
      StepPrefixes(RunOf(ops[..n]), ops[n]);
      PrefixesJoin(RunOf(ops[..n]), RunOf(ops[..n + 1]), RunOf(ops));
    } else {
      assert ops[..n] == ops;
      assert RunOf(ops).costs[|RunOf(ops).costs|..] == [];
    }
  }

  /** An invoice for each period, and every watermark at or below the last row. */
  ghost predicate Counted(db: Db) {
    && |db.invoices| == |db.periods|
    && (forall i :: 0 <= i < |db.periods| ==> db.periods[i].watermark <= |db.costs|)
    && forall i :: 0 <= i < |db.periods| ==>
         db.invoices[i].tenant == db.periods[i].tenant && db.invoices[i].period == db.periods[i].period
  }

  lemma StepCounts(db: Db, op: Op)
    requires Counted(db)
    ensures Counted(Apply(db, op).0)
  {
    ApplyExtends(db, op);
    StepAdds(db, op);
    if op.ClosePeriod? && Apply(db, op).1.Billed? {
      CloseAppends(db, op.tenant, op.period);
    }
  }

  lemma {:induction false} RunCounts(ops: seq<Op>)
    ensures Counted(RunOf(ops))
  {
    if ops != [] {
      RunCounts(ops[..|ops| - 1]);
      StepCounts(RunOf(ops[..|ops| - 1]), ops[|ops| - 1]);
    }
  }

  lemma {:induction false} EveryPeriodHasItsClose(ops: seq<Op>, i: nat) returns (c: nat)
    requires i < |RunOf(ops).periods|
    ensures ClosedBy(ops, c, i)
  {
    var n := |ops| - 1;
    var db := RunOf(ops[..n]);
    StepAdds(db, ops[n]);
    assert ops[..n + 1] == ops;
    if i < |db.periods| {
      c := EveryPeriodHasItsClose(ops[..n], i);
      assert ops[..n][..c] == ops[..c] && ops[..n][..c + 1] == ops[..c + 1];
    } else {
      CloseAppends(db, ops[n].tenant, ops[n].period);
      c := n;
    }
  }

  // ----- Late rows -----

  /** Row k lies in the window of close i, and its strategy came to the tenant only after it. */
  predicate Late(at: Db, now: Db, i: nat, k: nat)
    requires i < |at.periods|
  {
    var p := at.periods[i];
    && Mark(at.periods, p.tenant, i) <= k < p.watermark && k < |at.costs|
    && !Owned(at.strategies, at.costs[k], p.tenant) && Owned(now.strategies, at.costs[k], p.tenant)
  }

  predicate Joins(strategies: map<string, string>, strategies': map<string, string>, r: CostRow, tenant: string) {
    !Owned(strategies, r, tenant) && Owned(strategies', r, tenant)
  }

  /** A window never loses a row, keeps its rows when none joins, and grows when one does. */
  lemma {:induction false} PositionsGrow(costs: seq<CostRow>, more: seq<CostRow>,
                                         strategies: map<string, string>, strategies': map<string, string>,
                                         tenant: string, lo: nat, hi: nat)
    requires hi <= |costs|
    requires forall s :: s in strategies ==> s in strategies' && strategies'[s] == strategies[s]
    ensures var was := Positions(costs, strategies, tenant, lo, hi);
      var now := Positions(costs + more, strategies', tenant, lo, hi);
      if exists k :: lo <= k < hi && Joins(strategies, strategies', costs[k], tenant)
      then |now| > |was| else now == was
    ensures |Positions(costs + more, strategies', tenant, lo, hi)| >= |Positions(costs, strategies, tenant, lo, hi)|
  {
    if hi > lo {
      PositionsGrow(costs, more, strategies, strategies', tenant, lo, hi - 1);
      assert (costs + more)[hi - 1] == costs[hi - 1];
    }
  }

  lemma {:induction false} AsManyRows(costs: seq<CostRow>, ids: seq<nat>)
    requires forall i :: 0 <= i < |ids| ==> ids[i] < |costs|
    ensures |RowsAt(costs, ids)| == |ids|
  {
    if ids != [] {
      AsManyRows(costs, ids[..|ids| - 1]);
    }
  }

  lemma WindowStaysExactly(at: Db, now: Db, tenant: string, lo: nat, hi: nat)
    requires Extends(at, now) && hi <= |at.costs|
    ensures WindowRows(now.costs, now.strategies, tenant, lo, hi) == WindowRows(at.costs, at.strategies, tenant, lo, hi)
            <==> !exists k :: lo <= k < hi && Joins(at.strategies, now.strategies, at.costs[k], tenant)
  {
    var more := now.costs[|at.costs|..];
    var was, ids := Positions(at.costs, at.strategies, tenant, lo, hi), Positions(now.costs, now.strategies, tenant, lo, hi);
    PositionsGrow(at.costs, more, at.strategies, now.strategies, tenant, lo, hi);
    RowsStay(at.costs, more, was);
    AsManyRows(at.costs, was);
    AsManyRows(now.costs, ids);
  }

  lemma LateIsJoining(at: Db, now: Db, i: nat)
    requires i < |at.periods| && at.periods[i].watermark <= |at.costs|
    ensures (exists k :: Late(at, now, i, k))
            <==> exists k :: Mark(at.periods, at.periods[i].tenant, i) <= k < at.periods[i].watermark
                             && Joins(at.strategies, now.strategies, at.costs[k], at.periods[i].tenant)
  {
    var p := at.periods[i];
    forall k | Mark(at.periods, p.tenant, i) <= k < p.watermark
      ensures Late(at, now, i, k) <==> Joins(at.strategies, now.strategies, at.costs[k], p.tenant)
    {
    }
  }

  /** A close bills the rows of its own window. */
  lemma CloseBillsWhatItSaw(db: Db, tenant: string, period: string)
    requires Counted(db) && ApplyClose(db, tenant, period).1.Billed?
    ensures var at, i := ApplyClose(db, tenant, period).0, |db.periods|;
      && |at.periods| == |at.invoices| == i + 1 && at.periods[i].watermark == |at.costs|
      && at.invoices[i] == InvoiceOf(at.periods[i].tenant, at.periods[i].period, BilledRows(at, i))
  {
    CloseAppends(db, tenant, period);
    var at := ApplyClose(db, tenant, period).0;
    MarkPrefix(db.periods, [at.periods[|db.periods|]], tenant, |db.periods|);
  }

  lemma LaterReadsBack(at: Db, now: Db, i: nat)
    requires Prefixes(at, now) && i < |at.periods| && at.periods[i].watermark <= |at.costs|
    ensures BilledRows(now, i) == BilledRows(at, i) <==> !exists k :: Late(at, now, i, k)
  {
    var p := at.periods[i];
    MarkPrefix(at.periods, now.periods[|at.periods|..], p.tenant, i);
    assert now.periods == at.periods + now.periods[|at.periods|..];
    WindowStaysExactly(at, now, p.tenant, Mark(at.periods, p.tenant, i), p.watermark);
    LateIsJoining(at, now, i);
  }

  /**
   In every run, with no condition on the cost rows: a close's invoice stays the invoice
   of the rows it saw, and reading its window back gives the same rows exactly when no
   row in its range had its strategy come to the tenant after the close.
   */
  lemma WindowReadsBackExactly(ops: seq<Op>, c: nat, i: nat)
    requires ClosedBy(ops, c, i)
    ensures var at, now := RunOf(ops[..c + 1]), RunOf(ops);
      && i < |now.periods| && i < |now.invoices|
      && now.invoices[i] == InvoiceOf(now.periods[i].tenant, now.periods[i].period, BilledRows(at, i))
      && (BilledRows(now, i) == BilledRows(at, i) <==> !exists k :: Late(at, now, i, k))
  {
    assert ops[..c + 1][..c] == ops[..c];
    RunCounts(ops[..c]);
    StepAdds(RunOf(ops[..c]), ops[c]);
    CloseBillsWhatItSaw(RunOf(ops[..c]), ops[c].tenant, ops[c].period);
    RunPrefixes(ops, c + 1);
    LaterReadsBack(RunOf(ops[..c + 1]), RunOf(ops), i);
  }
}
