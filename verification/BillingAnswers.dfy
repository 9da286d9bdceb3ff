/**
 An invoice line by line over its rows, and what a close answers in every run.
 */
module BillingAnswers {
  import opened Sorting
  import opened MapSums
  import opened Billing
  import opened BillingStore
  import opened BillingRuns

  // ----- Lines -----

  /** The row counts on the line: usage of the period itself, or carried over from its own month. */
  predicate CountsOn(r: CostRow, period: string, k: LineKey) {
    && r.strategy == k.strategy && r.model == k.model
    && if k.entry == Usage then r.day.month == period && k.original == ""
       else r.day.month != period && k.original == r.day.month
  }

  /** Tokens and cost of the rows that count on a line. */
  function Counted(rows: seq<CostRow>, period: string, k: LineKey): Sums {
    if rows == [] then Sums(0, 0, 0.0)
    else
      var s, r := Counted(rows[..|rows| - 1], period, k), rows[|rows| - 1];
      if CountsOn(r, period, k) then Sums(s.input + r.input, s.output + r.output, s.amount + r.cost) else s
  }

  lemma {:induction false} GroupedCounts(rows: seq<CostRow>, period: string, k: LineKey)
    ensures GetOr(Grouped(rows, period), k, Sums(0, 0, 0.0)) == Counted(rows, period, k)
    ensures k in Grouped(rows, period) <==> exists r :: r in rows && CountsOn(r, period, k)
  {
    if rows != [] {
      var before, last := rows[..|rows| - 1], rows[|rows| - 1];
      GroupedCounts(before, period, k);
      assert forall r :: r in rows <==> r in before || r == last;
    }
  }

  /** Usage before carry-over, then strategy, model and month, each in dictionary order. */
  predicate Precedes(a: LineKey, b: LineKey) {
    if a.entry != b.entry then a.entry == Usage
    else if a.strategy != b.strategy then Dictionary(a.strategy, b.strategy)
    else if a.model != b.model then Dictionary(a.model, b.model)
    else a.original != b.original && Dictionary(a.original, b.original)
  }

  /** The text a ends inside b, or has the smaller character where they first differ. */
  predicate Dictionary(a: string, b: string) {
    exists n | 0 <= n <= |a| && n <= |b| :: a[..n] == b[..n] && (n == |a| || (n < |b| && a[n] < b[n]))
  }

  lemma {:induction false} LexIsDictionary(a: string, b: string)
    ensures LexLe(a, b) <==> Dictionary(a, b)
  {
    if a == [] {
      assert a[..0] == b[..0];
    } else if b != [] {
      LexIsDictionary(a[1..], b[1..]);
      if a[0] == b[0] && LexLe(a[1..], b[1..]) {
        var n :| 0 <= n <= |a[1..]| && n <= |b[1..]| && a[1..][..n] == b[1..][..n]
                 && (n == |a[1..]| || (n < |b[1..]| && a[1..][n] < b[1..][n]));
        assert a[..n + 1] == [a[0]] + a[1..][..n] && b[..n + 1] == [b[0]] + b[1..][..n];
      } else if a[0] < b[0] {
        assert a[..0] == b[..0];
      }
      if n :| 0 <= n <= |a| && n <= |b| && a[..n] == b[..n] && (n == |a| || (n < |b| && a[n] < b[n])) {
        if n > 0 {
          assert a[0] == a[..n][0] == b[..n][0] == b[0];
          assert a[1..][..n - 1] == a[..n][1..] && b[1..][..n - 1] == b[..n][1..];
        }
      }
    }
  }

  lemma LinePrecedes(a: LineKey, b: LineKey)
    requires LineLe(a, b) && a != b
    ensures Precedes(a, b)
  {
    LexIsDictionary(a.strategy, b.strategy);
    LexIsDictionary(a.model, b.model);
    LexIsDictionary(a.original, b.original);
  }

  lemma {:induction false} LinesAt(keys: seq<LineKey>, m: map<LineKey, Sums>, i: nat)
    requires i < |keys| && forall k :: k in keys ==> k in m
    ensures LinesFor(keys, m)[i] == Line(keys[i], m[keys[i]])
  {
    if i < |keys| - 1 {
      LinesAt(keys[..|keys| - 1], m, i);
    }
  }

  ghost predicate InOrder(lines: seq<Line>) {
    forall i, j :: 0 <= i < j < |lines| ==> Precedes(lines[i].key, lines[j].key)
  }

  /** Each line sums the rows that count on it, and there is one. */
  ghost predicate SumsItsRows(line: Line, rows: seq<CostRow>, period: string) {
    line.sums == Counted(rows, period, line.key) && exists r :: r in rows && CountsOn(r, period, line.key)
  }

  ghost predicate HasLine(lines: seq<Line>, k: LineKey) {
    exists i :: 0 <= i < |lines| && lines[i].key == k
  }

  lemma LinesOf(rows: seq<CostRow>, period: string, i: nat)
    requires var m := Grouped(rows, period); i < |InLineOrder(m.Keys)|
    ensures var m := Grouped(rows, period); var keys := InLineOrder(m.Keys);
      var line := LinesFor(keys, m)[i];
      line.key == keys[i] && SumsItsRows(line, rows, period)
  {
    var m := Grouped(rows, period);
    var keys := InLineOrder(m.Keys);
    LinesAt(keys, m, i);
    GroupedCounts(rows, period, keys[i]);
  }

  lemma LinesInOrder(rows: seq<CostRow>, period: string)
    ensures var m := Grouped(rows, period); InOrder(LinesFor(InLineOrder(m.Keys), m))
  {
    var m := Grouped(rows, period);
    var keys := InLineOrder(m.Keys);
    forall i, j | 0 <= i < j < |keys|
      ensures Precedes(LinesFor(keys, m)[i].key, LinesFor(keys, m)[j].key)
    {
      LinesAt(keys, m, i);
      LinesAt(keys, m, j);
      LinePrecedes(keys[i], keys[j]);
    }
  }

  lemma RowHasItsLine(rows: seq<CostRow>, period: string, r: CostRow, k: LineKey)
    requires r in rows && CountsOn(r, period, k)
    ensures var m := Grouped(rows, period); HasLine(LinesFor(InLineOrder(m.Keys), m), k)
  {
    var m := Grouped(rows, period);
    var keys := InLineOrder(m.Keys);
    GroupedCounts(rows, period, k);
    var i :| 0 <= i < |keys| && keys[i] == k;
    LinesAt(keys, m, i);
  }

  /**
   An invoice: its lines in order, without repeats; each with the tokens and the cost of
   the rows that count on it; a line for every row and no empty line; and the total.
   */
  lemma InvoiceIsExact(tenant: string, period: string, rows: seq<CostRow>)
    ensures var invoice := InvoiceOf(tenant, period, rows);
      && invoice.tenant == tenant && invoice.period == period && invoice.total == SumCost(rows)
      && InOrder(invoice.lines)
      && (forall line :: line in invoice.lines ==> SumsItsRows(line, rows, period))
      && (forall r, k :: r in rows && CountsOn(r, period, k) ==> HasLine(invoice.lines, k))
  {
    var lines := InvoiceOf(tenant, period, rows).lines;
    InvoiceTotalIsExact(tenant, period, rows);
    LinesInOrder(rows, period);
    forall i | 0 <= i < |lines|
      ensures SumsItsRows(lines[i], rows, period)
    {
      LinesOf(rows, period, i);
    }
    forall r, k | r in rows && CountsOn(r, period, k)
      ensures HasLine(lines, k)
    {
      RowHasItsLine(rows, period, r, k);
    }
  }

  // ----- Answers -----

  function DigitOf(c: char): int {
    c as int - '0' as int
  }

  /** Four digits, a dash, and two digits that name a month. */
  predicate IsMonth(p: string) {
    && |p| == 7 && p[4] == '-'
    && (forall i :: 0 <= i < 7 && i != 4 ==> 0 <= DigitOf(p[i]) <= 9)
    && 1 <= DigitOf(p[5]) * 10 + DigitOf(p[6]) <= 12
  }

  lemma ValidIsAMonth(p: string)
    ensures ValidPeriod(p) <==> IsMonth(p)
  {
    if |p| == 7 {
      assert forall i :: 0 <= i < 7 ==> (Digit(p[i]) <==> 0 <= DigitOf(p[i]) <= 9);
    }
  }

  lemma {:induction false} TenantsWereAdded(ops: seq<Op>, tenant: string)
    ensures tenant in RunOf(ops).tenants <==> AddTenant(tenant) in ops
  {
    if ops != [] {
      var before, last := ops[..|ops| - 1], ops[|ops| - 1];
      TenantsWereAdded(before, tenant);
      assert forall op :: op in ops <==> op in before || op == last;
    }
  }

  /**
   In every run a close is invalid exactly for a period that is no month, then not found
   exactly for a tenant never added, then refused exactly for a period the tenant has
   closed; otherwise it bills, and adds one period up to the last cost row and one invoice.
   */
  lemma CloseAnswersExactly(ops: seq<Op>, tenant: string, period: string)
    ensures var db := RunOf(ops);
      var (db', answer) := Apply(db, ClosePeriod(tenant, period));
      var closed := exists p :: p in db.periods && p.tenant == tenant && p.period == period;
      if !IsMonth(period) then db' == db && answer.Invalid?
      else if AddTenant(tenant) !in ops then db' == db && answer.NotFound?
      else if closed then db' == db && answer.PeriodClosed?
      else
        && answer.Billed? && answer.invoice.tenant == tenant && answer.invoice.period == period
        && db' == db.(periods := db.periods + [Period(tenant, period, |db.costs|)],
                      invoices := db.invoices + [answer.invoice])
  {
    var db := RunOf(ops);
    ValidIsAMonth(period);
    TenantsWereAdded(ops, tenant);
    ClosedIsListed(db.periods, tenant, period);
  }

  lemma ClosedIsListed(periods: seq<Period>, tenant: string, period: string)
    ensures IsClosed(periods, tenant, period) <==> exists p :: p in periods && p.tenant == tenant && p.period == period
  {
    if IsClosed(periods, tenant, period) {
      var i :| 0 <= i < |periods| && periods[i].tenant == tenant && periods[i].period == period;
      assert periods[i] in periods;
    }
  }
}
