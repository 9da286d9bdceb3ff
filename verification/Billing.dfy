/**
 Billing closes: rowid windows over the append-only cost rows, and invoices that
 group a window's rows into sorted lines with exact sums.
 */
module Billing {
  import opened Wrappers
  import opened Sorting
  import opened MapSums

  datatype UsageDay = UsageDay(month: string, day: int)

  /** A model_costs row with its run's usage day; the row id is its position plus one. */
  datatype CostRow = CostRow(request: Option<string>, estimated: bool, strategy: string, model: string,
                             input: int, output: int, cost: real, day: UsageDay)

  datatype EntryType = Usage | CarryOver

  datatype LineKey = LineKey(strategy: string, model: string, entry: EntryType, original: string)

  datatype Sums = Sums(input: int, output: int, amount: real)

  datatype Line = Line(key: LineKey, sums: Sums)

  datatype Invoice = Invoice(tenant: string, period: string, total: real, lines: seq<Line>)

  datatype Period = Period(tenant: string, period: string, watermark: nat)

  // ----- The order of lines -----

  function Rank(e: EntryType): int {
    if e.Usage? then 0 else 1
  }

  predicate LineLe(a: LineKey, b: LineKey) {
    if a.entry != b.entry then Rank(a.entry) < Rank(b.entry)
    else if a.strategy != b.strategy then LexLe(a.strategy, b.strategy)
    else if a.model != b.model then LexLe(a.model, b.model)
    else LexLe(a.original, b.original)
  }

  lemma LineOrderIsTotal()
    ensures TotalOrder(LineLe)
  {
    LexIsTotal();
  }

  function InLineOrder(keys: set<LineKey>): (r: seq<LineKey>)
    ensures |r| == |keys| && forall k :: k in r <==> k in keys
    ensures forall i, j :: 0 <= i < j < |r| ==> LineLe(r[i], r[j]) && r[i] != r[j]
  {
    LineOrderIsTotal();
    Listed(keys, LineLe)
  }

  // ----- Grouping -----

  function KeyOf(r: CostRow, period: string): LineKey {
    if r.day.month == period then LineKey(r.strategy, r.model, Usage, "")
    else LineKey(r.strategy, r.model, CarryOver, r.day.month)
  }

  function Plus(s: Sums, r: CostRow): Sums {
    Sums(s.input + r.input, s.output + r.output, s.amount + r.cost)
  }

  const ZERO := Sums(0, 0, 0.0)

  function AddRow(m: map<LineKey, Sums>, r: CostRow, period: string): map<LineKey, Sums> {
    m[KeyOf(r, period) := Plus(GetOr(m, KeyOf(r, period), ZERO), r)]
  }

  function Grouped(rows: seq<CostRow>, period: string): map<LineKey, Sums> {
    if rows == [] then map[]
    else AddRow(Grouped(rows[..|rows| - 1], period), rows[|rows| - 1], period)
  }

  function LinesFor(keys: seq<LineKey>, m: map<LineKey, Sums>): (lines: seq<Line>)
    requires forall k :: k in keys ==> k in m
    ensures |lines| == |keys|
  {
    if keys == [] then []
    else
      var last := keys[|keys| - 1];
      LinesFor(keys[..|keys| - 1], m) + [Line(last, m[last])]
  }

  function TotalOf(lines: seq<Line>): real {
    if lines == [] then 0.0 else TotalOf(lines[..|lines| - 1]) + lines[|lines| - 1].sums.amount
  }

  function InvoiceOf(tenant: string, period: string, rows: seq<CostRow>): Invoice {
    var m := Grouped(rows, period);
    var lines := LinesFor(InLineOrder(m.Keys), m);
    Invoice(tenant, period, TotalOf(lines), lines)
  }

  lemma GroupedPush(rows: seq<CostRow>, r: CostRow, period: string)
    ensures Grouped(rows + [r], period) == AddRow(Grouped(rows, period), r, period)
  {
    assert (rows + [r])[..|rows|] == rows;
  }

  method SumRows(rows: seq<CostRow>, period: string) returns (sums: map<LineKey, Sums>)
    ensures sums == Grouped(rows, period)
  {
    sums := map[];
    var n := 0;
    while n < |rows|
      invariant 0 <= n <= |rows|
      invariant sums == Grouped(rows[..n], period)
    {
      GroupedPush(rows[..n], rows[n], period);
      assert rows[..n + 1] == rows[..n] + [rows[n]];
      var key, r := KeyOf(rows[n], period), rows[n];
      var sum := if key in sums then sums[key] else ZERO;
      sums := sums[key := Sums(sum.input + r.input, sum.output + r.output, sum.amount + r.cost)];
      n := n + 1;
    }
    assert rows[..n] == rows;
  }

  lemma LinesPush(keys: seq<LineKey>, k: LineKey, m: map<LineKey, Sums>)
    requires k in m && forall x :: x in keys ==> x in m
    ensures LinesFor(keys + [k], m) == LinesFor(keys, m) + [Line(k, m[k])]
    ensures TotalOf(LinesFor(keys + [k], m)) == TotalOf(LinesFor(keys, m)) + m[k].amount
  {
    var lines := LinesFor(keys, m);
    assert (keys + [k])[..|keys|] == keys;
    assert (lines + [Line(k, m[k])])[..|lines|] == lines;
  }

  method WriteLines(keys: seq<LineKey>, sums: map<LineKey, Sums>) returns (lines: seq<Line>, total: real)
    requires forall k :: k in keys ==> k in sums
    ensures lines == LinesFor(keys, sums) && total == TotalOf(lines)
  {
    lines, total := [], 0.0;
    var n := 0;
    while n < |keys|
      invariant 0 <= n <= |keys|
      invariant lines == LinesFor(keys[..n], sums) && total == TotalOf(lines)
    {
      LinesPush(keys[..n], keys[n], sums);
      assert keys[..n + 1] == keys[..n] + [keys[n]];
      lines := lines + [Line(keys[n], sums[keys[n]])];
      total := total + sums[keys[n]].amount;
      n := n + 1;
    }
    assert keys[..n] == keys;
  }

  /** Accumulates the sums, then writes the lines in order and adds up the total. */
  method BuildInvoice(tenant: string, period: string, rows: seq<CostRow>) returns (invoice: Invoice)
    ensures invoice == InvoiceOf(tenant, period, rows)
  {
    var sums := SumRows(rows, period);
    var keys := InLineOrder(sums.Keys);
    var lines, total := WriteLines(keys, sums);
    invoice := Invoice(tenant, period, total, lines);
  }

  // ----- What grouping keeps -----

  function SumCost(rows: seq<CostRow>): real {
    if rows == [] then 0.0 else SumCost(rows[..|rows| - 1]) + rows[|rows| - 1].cost
  }

  function SumOf(rows: seq<CostRow>): (s: Sums) {
    if rows == [] then ZERO else Plus(SumOf(rows[..|rows| - 1]), rows[|rows| - 1])
  }

  /** The rows that belong on one line. */
  function Group(rows: seq<CostRow>, period: string, k: LineKey): seq<CostRow> {
    if rows == [] then []
    else
      var rest, last := Group(rows[..|rows| - 1], period, k), rows[|rows| - 1];
      if KeyOf(last, period) == k then rest + [last] else rest
  }

  /** A line exists exactly when some row belongs on it, and sums exactly its rows. */
  lemma {:induction false} LineSumsItsGroup(rows: seq<CostRow>, period: string, k: LineKey)
    ensures k in Grouped(rows, period) <==> Group(rows, period, k) != []
    ensures GetOr(Grouped(rows, period), k, ZERO) == SumOf(Group(rows, period, k))
  {
    if rows != [] {
      var before, last := rows[..|rows| - 1], rows[|rows| - 1];
      LineSumsItsGroup(before, period, k);
      var group := Group(before, period, k);
      assert (group + [last])[..|group|] == group;
    }
  }

  ghost function Amounts(m: map<LineKey, Sums>): map<LineKey, real> {
    map k | k in m :: m[k].amount
  }

  lemma {:induction false} GroupingKeepsTheSum(rows: seq<CostRow>, period: string)
    ensures Total(Amounts(Grouped(rows, period))) == SumCost(rows)
  {
    if rows != [] {
      var before, last := rows[..|rows| - 1], rows[|rows| - 1];
      GroupingKeepsTheSum(before, period);
      var m, k := Grouped(before, period), KeyOf(last, period);
      var v := GetOr(m, k, ZERO).amount + last.cost;
      assert Amounts(AddRow(m, last, period)) == Amounts(m)[k := v];
      TotalUpdate(Amounts(m), k, v);
    }
  }

  lemma {:induction false} TotalIsListSum(keys: seq<LineKey>, m: map<LineKey, Sums>)
    requires forall k :: k in keys ==> k in m
    ensures TotalOf(LinesFor(keys, m)) == ListSum(keys, Amounts(m))
  {
    if keys != [] {
      var before, last := keys[..|keys| - 1], keys[|keys| - 1];
      TotalIsListSum(before, m);
      assert keys == before + [last];
      LinesPush(before, last, m);
    }
  }

  /** An invoice's total is exactly the sum of its rows' costs. */
  lemma InvoiceTotalIsExact(tenant: string, period: string, rows: seq<CostRow>)
    ensures InvoiceOf(tenant, period, rows).total == SumCost(rows)
  {
    var m := Grouped(rows, period);
    GroupingKeepsTheSum(rows, period);
    TotalIsListSum(InLineOrder(m.Keys), m);
    ListSumIsTotal(InLineOrder(m.Keys), Amounts(m));
  }

  lemma AddRowsCommute(m: map<LineKey, Sums>, a: CostRow, b: CostRow, period: string)
    ensures AddRow(AddRow(m, a, period), b, period) == AddRow(AddRow(m, b, period), a, period)
  {
    var x, y := KeyOf(a, period), KeyOf(b, period);
    var s := GetOr(m, x, ZERO);
    if x == y {
      assert Plus(Plus(s, a), b) == Plus(Plus(s, b), a);
    }
  }

  /** A row counts the same wherever it stands. */
  lemma {:induction false} RowMovesLast(a: seq<CostRow>, x: CostRow, b: seq<CostRow>, period: string)
    ensures Grouped(a + [x] + b, period) == AddRow(Grouped(a + b, period), x, period)
    decreases |b|
  {
    if b == [] {
      assert a + [x] + b == a + [x] && a + b == a;
      GroupedPush(a, x, period);
    } else {
      var before, last := b[..|b| - 1], b[|b| - 1];
      RowMovesLast(a, x, before, period);
      assert a + [x] + b == a + [x] + before + [last] && a + b == a + before + [last];
      GroupedPush(a + [x] + before, last, period);
      GroupedPush(a + before, last, period);
      AddRowsCommute(Grouped(a + before, period), x, last, period);
    }
  }

  lemma TakeOut(a: seq<CostRow>, x: CostRow, left: seq<CostRow>, right: seq<CostRow>)
    requires multiset(a + [x]) == multiset(left + [x] + right)
    ensures multiset(a) == multiset(left + right)
  {
    assert multiset(a + [x]) == multiset(a) + multiset{x};
    assert multiset(left + [x] + right) == multiset(left) + multiset{x} + multiset(right);
    assert multiset(left + right) == multiset(left) + multiset(right);
    assert multiset(a) == multiset(a) + multiset{x} - multiset{x};
  }

  lemma {:induction false} GroupingIgnoresOrder(a: seq<CostRow>, b: seq<CostRow>, period: string)
    requires multiset(a) == multiset(b)
    ensures Grouped(a, period) == Grouped(b, period)
    decreases |a|
  {
    assert |multiset(a)| == |multiset(b)|;
    if a != [] {
      var before, x := a[..|a| - 1], a[|a| - 1];
      assert a == before + [x];
      assert x in multiset(b);
      var i :| 0 <= i < |b| && b[i] == x;
      var left, right := b[..i], b[i + 1..];
      assert b == left + [x] + right;
      TakeOut(before, x, left, right);
      GroupingIgnoresOrder(before, left + right, period);
      RowMovesLast(left, x, right, period);
    }
  }

  /** An invoice depends only on the multiset of its rows. */
  lemma InvoiceIgnoresOrder(tenant: string, period: string, a: seq<CostRow>, b: seq<CostRow>)
    requires multiset(a) == multiset(b)
    ensures InvoiceOf(tenant, period, a) == InvoiceOf(tenant, period, b)
  {
    GroupingIgnoresOrder(a, b, period);
  }
}
