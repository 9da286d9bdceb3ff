/**
 Reconciliation of a closed period: the close's window is read back, every row is
 put in one of four classes against the gateway's records, and the sums must
 reproduce the invoice total.
 */
module Reconcile {
  import opened Wrappers
  import opened MapSums
  import opened Billing
  import opened BillingStore
  import opened BillingRuns
  import opened BillingWindows

  /** A gateway spend-log record; request ids are unique. */
  datatype Metering = Metering(request: string, strategy: string, model: string, input: int, output: int,
                               cost: real, day: UsageDay)

  function GatewayOf(metering: seq<Metering>, request: string): (m: Option<Metering>)
    ensures m.Some? ==> m.value in metering && m.value.request == request
    ensures m.None? ==> forall x :: x in metering ==> x.request != request
  {
    if metering == [] then None
    else if metering[0].request == request then Some(metering[0])
    else GatewayOf(metering[1..], request)
  }

  // ----- Classes -----

  datatype Class = Unattributed | Estimated | Orphan | Matched

  /** The gateway's record of a row that promises equality: attributed and not estimated. */
  function Record(r: CostRow, metering: seq<Metering>): Option<Metering> {
    if r.request.None? || r.estimated then None else GatewayOf(metering, r.request.value)
  }

  function ClassOf(r: CostRow, metering: seq<Metering>): Class {
    if r.request.None? then Unattributed
    else if r.estimated then Estimated
    else
      var gw := Record(r, metering);
      if gw.None? || gw.value.strategy != r.strategy then Orphan else Matched
  }

  predicate Misattributed(r: CostRow, metering: seq<Metering>) {
    var gw := Record(r, metering);
    gw.Some? && gw.value.strategy != r.strategy
  }

  predicate TokensDiffer(r: CostRow, metering: seq<Metering>) {
    var gw := Record(r, metering);
    ClassOf(r, metering).Matched? && (r.input != gw.value.input || r.output != gw.value.output)
  }

  function SumIn(rows: seq<CostRow>, metering: seq<Metering>, c: Class): real {
    if rows == [] then 0.0
    else
      var last := rows[|rows| - 1];
      SumIn(rows[..|rows| - 1], metering, c) + if ClassOf(last, metering) == c then last.cost else 0.0
  }

  /** The four classes partition every set of rows. */
  lemma {:induction false} ClassesPartition(rows: seq<CostRow>, metering: seq<Metering>)
    ensures SumIn(rows, metering, Matched) + SumIn(rows, metering, Orphan)
            + SumIn(rows, metering, Estimated) + SumIn(rows, metering, Unattributed) == SumCost(rows)
  {
    if rows != [] {
      ClassesPartition(rows[..|rows| - 1], metering);
    }
  }

  datatype AggKey = AggKey(strategy: string, day: UsageDay)

  datatype AggPair = AggPair(clientIn: int, clientOut: int, gwIn: int, gwOut: int)

  const NO_TOKENS := AggPair(0, 0, 0, 0)

  predicate Counts(r: CostRow, metering: seq<Metering>, k: AggKey) {
    ClassOf(r, metering).Matched? && AggKey(r.strategy, r.day) == k
  }

  function AddPair(p: AggPair, r: CostRow, gw: Metering): AggPair {
    AggPair(p.clientIn + r.input, p.clientOut + r.output, p.gwIn + gw.input, p.gwOut + gw.output)
  }

  /** Token sums of the matched pairs of one strategy and usage day. */
  function AggIn(rows: seq<CostRow>, metering: seq<Metering>, k: AggKey): AggPair {
    if rows == [] then NO_TOKENS
    else
      var rest, last := AggIn(rows[..|rows| - 1], metering, k), rows[|rows| - 1];
      if Counts(last, metering, k) then AddPair(rest, last, Record(last, metering).value) else rest
  }

  predicate Balanced(p: AggPair) {
    p.clientIn == p.gwIn && p.clientOut == p.gwOut
  }

  datatype Kind = OrphanClient | OrphanGateway | EstimatedClient | MismatchTokens | MismatchCost | AttributionMismatch

  datatype Discrepancy = Discrepancy(kind: Kind, request: string, strategy: string)

  /** The client-side discrepancies of one row. */
  function Found(r: CostRow, metering: seq<Metering>): seq<Discrepancy> {
    match ClassOf(r, metering)
    case Unattributed => []
    case Estimated => [Discrepancy(EstimatedClient, r.request.value, r.strategy)]
    case Orphan =>
      [Discrepancy(if Misattributed(r, metering) then AttributionMismatch else OrphanClient,
                   r.request.value, r.strategy)]
    case Matched =>
      var gw := Record(r, metering).value;
      (if TokensDiffer(r, metering) then [Discrepancy(MismatchTokens, r.request.value, r.strategy)] else [])
      + (if r.cost != gw.cost then [Discrepancy(MismatchCost, r.request.value, r.strategy)] else [])
  }

  function AllFound(rows: seq<CostRow>, metering: seq<Metering>): seq<Discrepancy> {
    if rows == [] then [] else AllFound(rows[..|rows| - 1], metering) + Found(rows[|rows| - 1], metering)
  }

  function MatchedIds(rows: seq<CostRow>, metering: seq<Metering>): set<string> {
    set r | r in rows && ClassOf(r, metering).Matched? :: r.request.value
  }

  function CountMatched(rows: seq<CostRow>, metering: seq<Metering>): nat {
    if rows == [] then 0
    else CountMatched(rows[..|rows| - 1], metering) + if ClassOf(rows[|rows| - 1], metering).Matched? then 1 else 0
  }

  datatype ReconSums = ReconSums(matched: real, orphan: real, estimated: real, unattributed: real,
                                 matchedIds: set<string>, matchedCount: nat, tokenMismatch: bool,
                                 attributionMismatch: bool, aggs: map<AggKey, AggPair>)

  /** What the totals say about the rows they were taken over. */
  ghost predicate Tallies(s: ReconSums, rows: seq<CostRow>, metering: seq<Metering>) {
    && SumsTally(s, rows, metering) && s.matchedIds == MatchedIds(rows, metering)
    && (s.tokenMismatch <==> exists i :: 0 <= i < |rows| && TokensDiffer(rows[i], metering))
    && (s.attributionMismatch <==> exists i :: 0 <= i < |rows| && Misattributed(rows[i], metering))
    && Aggregates(s.aggs, rows, metering)
  }

  ghost predicate SumsTally(s: ReconSums, rows: seq<CostRow>, metering: seq<Metering>) {
    && s.matched == SumIn(rows, metering, Matched) && s.orphan == SumIn(rows, metering, Orphan)
    && s.estimated == SumIn(rows, metering, Estimated) && s.unattributed == SumIn(rows, metering, Unattributed)
    && s.matchedCount == CountMatched(rows, metering)
  }

  ghost predicate Aggregates(aggs: map<AggKey, AggPair>, rows: seq<CostRow>, metering: seq<Metering>) {
    forall k :: AggregateAt(aggs, rows, metering, k)
  }

  /** The pair of one strategy and day: present when a matched row counts, and the sum of those rows. */
  ghost predicate AggregateAt(aggs: map<AggKey, AggPair>, rows: seq<CostRow>, metering: seq<Metering>, k: AggKey) {
    (k in aggs <==> Counted(rows, metering, k)) && GetOr(aggs, k, NO_TOKENS) == AggIn(rows, metering, k)
  }

  ghost predicate Counted(rows: seq<CostRow>, metering: seq<Metering>, k: AggKey) {
    exists i :: 0 <= i < |rows| && Counts(rows[i], metering, k)
  }

  // ----- The loop -----

  const NO_SUMS := ReconSums(0.0, 0.0, 0.0, 0.0, {}, 0, false, false, map[])

  /** The normative precedence for one row: unattributed, estimated, then by the gateway's record. */
  method ClassifyRow(s: ReconSums, r: CostRow, metering: seq<Metering>)
    returns (s': ReconSums, found: seq<Discrepancy>)
    ensures s' == Tally(s, r, metering) && found == Found(r, metering)
  {
    if r.request.None? {
      return s.(unattributed := s.unattributed + r.cost), [];
    }
    var id := r.request.value;
    if r.estimated {
      return s.(estimated := s.estimated + r.cost), [Discrepancy(EstimatedClient, id, r.strategy)];
    }
    var record := GatewayOf(metering, id);
    if record.None? {
      return s.(orphan := s.orphan + r.cost), [Discrepancy(OrphanClient, id, r.strategy)];
    }
    var gw := record.value;
    if gw.strategy != r.strategy {
      return s.(orphan := s.orphan + r.cost, attributionMismatch := true),
        [Discrepancy(AttributionMismatch, id, r.strategy)];
    }
    var key := AggKey(r.strategy, r.day);
    var agg := if key in s.aggs then s.aggs[key] else NO_TOKENS;
    agg := AggPair(agg.clientIn + r.input, agg.clientOut + r.output, agg.gwIn + gw.input, agg.gwOut + gw.output);
    s' := s.(matched := s.matched + r.cost, matchedIds := s.matchedIds + {id}, matchedCount := s.matchedCount + 1,
             aggs := s.aggs[key := agg]);
    found := [];
    if r.input != gw.input || r.output != gw.output {
      s' := s'.(tokenMismatch := true);
      found := found + [Discrepancy(MismatchTokens, id, r.strategy)];
    }
    if r.cost != gw.cost {
      found := found + [Discrepancy(MismatchCost, id, r.strategy)];
    }
  }

  function Tally(s: ReconSums, r: CostRow, metering: seq<Metering>): ReconSums {
    match ClassOf(r, metering)
    case Unattributed => s.(unattributed := s.unattributed + r.cost)
    case Estimated => s.(estimated := s.estimated + r.cost)
    case Orphan => s.(orphan := s.orphan + r.cost,
                      attributionMismatch := s.attributionMismatch || Misattributed(r, metering))
    case Matched =>
      var key, gw := AggKey(r.strategy, r.day), Record(r, metering).value;
      s.(matched := s.matched + r.cost, matchedIds := s.matchedIds + {r.request.value},
         matchedCount := s.matchedCount + 1, tokenMismatch := s.tokenMismatch || TokensDiffer(r, metering),
         aggs := s.aggs[key := AddPair(GetOr(s.aggs, key, NO_TOKENS), r, gw)])
  }

  lemma CountedPush(rows: seq<CostRow>, r: CostRow, metering: seq<Metering>, k: AggKey)
    ensures Counted(rows + [r], metering, k) <==> Counted(rows, metering, k) || Counts(r, metering, k)
  {
    var all := rows + [r];
    if Counted(rows, metering, k) {
      var i :| 0 <= i < |rows| && Counts(rows[i], metering, k);
      assert Counts(all[i], metering, k);
    }
    assert all[|rows|] == r;
  }

  lemma AggInPush(rows: seq<CostRow>, r: CostRow, metering: seq<Metering>, k: AggKey)
    ensures AggIn(rows + [r], metering, k)
         == if Counts(r, metering, k) then AddPair(AggIn(rows, metering, k), r, Record(r, metering).value)
            else AggIn(rows, metering, k)
  {
    assert (rows + [r])[..|rows|] == rows;
  }

  lemma TallyAggregateAt(s: ReconSums, rows: seq<CostRow>, r: CostRow, metering: seq<Metering>, k: AggKey)
    requires AggregateAt(s.aggs, rows, metering, k)
    ensures AggregateAt(Tally(s, r, metering).aggs, rows + [r], metering, k)
  {
    CountedPush(rows, r, metering, k);
    AggInPush(rows, r, metering, k);
  }

  lemma TallyAggregates(s: ReconSums, rows: seq<CostRow>, r: CostRow, metering: seq<Metering>)
    requires Aggregates(s.aggs, rows, metering)
    ensures Aggregates(Tally(s, r, metering).aggs, rows + [r], metering)
  {
    forall k
      ensures AggregateAt(Tally(s, r, metering).aggs, rows + [r], metering, k)
    {
      TallyAggregateAt(s, rows, r, metering, k);
    }
  }

  lemma TallySums(s: ReconSums, rows: seq<CostRow>, r: CostRow, metering: seq<Metering>)
    requires SumsTally(s, rows, metering)
    ensures SumsTally(Tally(s, r, metering), rows + [r], metering)
  {
    assert (rows + [r])[..|rows|] == rows;
  }

  lemma TallyIds(s: ReconSums, rows: seq<CostRow>, r: CostRow, metering: seq<Metering>)
    requires s.matchedIds == MatchedIds(rows, metering)
    ensures Tally(s, r, metering).matchedIds == MatchedIds(rows + [r], metering)
  {
    assert forall x :: x in rows + [r] <==> x in rows || x == r;
  }

  lemma TallyFlags(s: ReconSums, rows: seq<CostRow>, r: CostRow, metering: seq<Metering>)
    requires s.tokenMismatch <==> exists i :: 0 <= i < |rows| && TokensDiffer(rows[i], metering)
    requires s.attributionMismatch <==> exists i :: 0 <= i < |rows| && Misattributed(rows[i], metering)
    ensures var s', all := Tally(s, r, metering), rows + [r];
      && (s'.tokenMismatch <==> exists i :: 0 <= i < |all| && TokensDiffer(all[i], metering))
      && (s'.attributionMismatch <==> exists i :: 0 <= i < |all| && Misattributed(all[i], metering))
  {
    var all := rows + [r];
    assert all[|rows|] == r && forall i :: 0 <= i < |rows| ==> all[i] == rows[i];
  }

  lemma TallyTallies(s: ReconSums, rows: seq<CostRow>, r: CostRow, metering: seq<Metering>)
    requires Tallies(s, rows, metering)
    ensures Tallies(Tally(s, r, metering), rows + [r], metering)
  {
    TallySums(s, rows, r, metering);
    TallyIds(s, rows, r, metering);
    TallyFlags(s, rows, r, metering);
    TallyAggregates(s, rows, r, metering);
  }

  method ClassifyClientSet(rows: seq<CostRow>, metering: seq<Metering>)
    returns (sums: ReconSums, found: seq<Discrepancy>)
    ensures Tallies(sums, rows, metering) && found == AllFound(rows, metering)
  {
    sums, found := NO_SUMS, [];
    var n := 0;
    while n < |rows|
      invariant 0 <= n <= |rows|
      invariant Tallies(sums, rows[..n], metering) && found == AllFound(rows[..n], metering)
    {
      assert rows[..n + 1] == rows[..n] + [rows[n]] && rows[..n + 1][..n] == rows[..n];
      TallyTallies(sums, rows[..n], rows[n], metering);
      var more;
      sums, more := ClassifyRow(sums, rows[n], metering);
      found := found + more;
      n := n + 1;
    }
    assert rows[..n] == rows;
  }

  /** The aggregate check: one pass over the (strategy, day) pairs. */
  method AggregateOk(aggs: map<AggKey, AggPair>) returns (ok: bool)
    ensures ok <==> forall k :: k in aggs ==> aggs[k].clientIn == aggs[k].gwIn && aggs[k].clientOut == aggs[k].gwOut
  {
    var todo := aggs.Keys;
    while todo != {}
      invariant todo <= aggs.Keys
      invariant forall k :: k in aggs && k !in todo ==> Balanced(aggs[k])
      decreases |todo|
    {
      var k :| k in todo;
      if !Balanced(aggs[k]) {
        return false;
      }
      todo := todo - {k};
    }
    ok := true;
  }

  // ----- Gateway orphans -----

  predicate Unmatched(m: Metering, strategies: map<string, string>, tenant: string, period: string, ids: set<string>) {
    m.strategy in strategies && strategies[m.strategy] == tenant && m.day.month == period && m.request !in ids
  }

  /** The tenant's gateway records of the period that no client row matched, in row order. */
  function OrphansOf(metering: seq<Metering>, strategies: map<string, string>, tenant: string,
                     period: string, ids: set<string>): seq<Discrepancy> {
    if metering == [] then []
    else
      var rest, m := OrphansOf(metering[..|metering| - 1], strategies, tenant, period, ids), metering[|metering| - 1];
      if Unmatched(m, strategies, tenant, period, ids)
      then rest + [Discrepancy(OrphanGateway, m.request, m.strategy)] else rest
  }

  method GatewayOrphans(metering: seq<Metering>, strategies: map<string, string>, tenant: string,
                        period: string, ids: set<string>) returns (out: seq<Discrepancy>)
    ensures out == OrphansOf(metering, strategies, tenant, period, ids)
  {
    out := [];
    var n := 0;
    while n < |metering|
      invariant 0 <= n <= |metering|
      invariant out == OrphansOf(metering[..n], strategies, tenant, period, ids)
    {
      assert metering[..n + 1][..n] == metering[..n];
      var m := metering[n];
      if m.strategy in strategies && strategies[m.strategy] == tenant && m.day.month == period && m.request !in ids {
        out := out + [Discrepancy(OrphanGateway, m.request, m.strategy)];
      }
      n := n + 1;
    }
    assert metering[..n] == metering;
  }

  // ----- The run -----

  datatype ReconRun = ReconRun(tenant: string, period: string, pass: bool, matchedCount: nat, discrepancies: nat,
                               matched: real, orphan: real, estimated: real, unattributed: real, total: real)

  datatype Outcome = Invalid | NotFound | PeriodOpen | NoInvoice | Ran(run: ReconRun, discrepancies: seq<Discrepancy>)

  /** Where a (tenant, period) stands among the closes. */
  function FindPeriod(periods: seq<Period>, tenant: string, period: string): (i: Option<nat>)
    ensures i.Some? ==> i.value < |periods|
                        && periods[i.value].tenant == tenant && periods[i.value].period == period
    ensures i.None? ==> forall k :: 0 <= k < |periods| ==>
              periods[k].tenant != tenant || periods[k].period != period
  {
    if periods == [] then None
    else
      var last := periods[|periods| - 1];
      if last.tenant == tenant && last.period == period then Some(|periods| - 1)
      else FindPeriod(periods[..|periods| - 1], tenant, period)
  }

  /** Where a (tenant, period) stands among the invoices. */
  function FindInvoice(invoices: seq<Invoice>, tenant: string, period: string): (i: Option<nat>)
    ensures i.Some? ==> i.value < |invoices|
                        && invoices[i.value].tenant == tenant && invoices[i.value].period == period
    ensures i.None? ==> forall k :: 0 <= k < |invoices| ==>
              invoices[k].tenant != tenant || invoices[k].period != period
  {
    if invoices == [] then None
    else
      var last := invoices[|invoices| - 1];
      if last.tenant == tenant && last.period == period then Some(|invoices| - 1)
      else FindInvoice(invoices[..|invoices| - 1], tenant, period)
  }

  /** The invoice of a closed period is found where the period is. */
  lemma {:induction false} InvoiceIsWithItsPeriod(periods: seq<Period>, invoices: seq<Invoice>,
                                                  tenant: string, period: string)
    requires |periods| == |invoices|
    requires forall i :: 0 <= i < |periods| ==>
               invoices[i].tenant == periods[i].tenant && invoices[i].period == periods[i].period
    ensures FindInvoice(invoices, tenant, period) == FindPeriod(periods, tenant, period)
  {
    if periods != [] {
      InvoiceIsWithItsPeriod(periods[..|periods| - 1], invoices[..|invoices| - 1], tenant, period);
    }
  }

  predicate Disagrees(r: CostRow, metering: seq<Metering>) {
    var gw := Record(r, metering);
    gw.Some? && (gw.value.strategy != r.strategy || gw.value.input != r.input || gw.value.output != r.output)
  }

  ghost predicate AggregatesBalance(rows: seq<CostRow>, metering: seq<Metering>) {
    forall k :: Balanced(AggIn(rows, metering, k))
  }

  /** When the code passes a run over these rows and this invoice total. */
  ghost predicate Passes(rows: seq<CostRow>, metering: seq<Metering>, total: real) {
    && (forall i :: 0 <= i < |rows| ==> !TokensDiffer(rows[i], metering) && !Misattributed(rows[i], metering))
    && SumIn(rows, metering, Matched) + SumIn(rows, metering, Orphan)
       + SumIn(rows, metering, Estimated) + SumIn(rows, metering, Unattributed) == total
    && AggregatesBalance(rows, metering)
  }

  method Run(db: Db, metering: seq<Metering>, tenant: string, period: string) returns (r: Outcome)
    ensures r.Invalid? <==> !ValidPeriod(period)
    ensures r.NotFound? <==> ValidPeriod(period) && tenant !in db.tenants
    ensures r.PeriodOpen? <==> ValidPeriod(period) && tenant in db.tenants && !IsClosed(db.periods, tenant, period)
    ensures r.NoInvoice? ==> FindInvoice(db.invoices, tenant, period).None?
    ensures r.Ran? ==>
      var i, j := FindPeriod(db.periods, tenant, period), FindInvoice(db.invoices, tenant, period);
      && i.Some? && j.Some?
      && Reports(r, tenant, period, BilledRows(db, i.value), metering, db.strategies, db.invoices[j.value].total)
  {
    if !ValidPeriod(period) {
      return Outcome.Invalid;
    }
    if tenant !in db.tenants {
      return Outcome.NotFound;
    }
    var i := FindPeriod(db.periods, tenant, period);
    if i.None? {
      return PeriodOpen;
    }
    var watermark, prev := db.periods[i.value].watermark, Mark(db.periods, tenant, i.value);
    var j := FindInvoice(db.invoices, tenant, period);
    if j.None? {
      return NoInvoice;
    }
    var total := db.invoices[j.value].total;
    var rows := WindowRows(db.costs, db.strategies, tenant, prev, watermark);
    var sums, found := ClassifyClientSet(rows, metering);
    var orphans := GatewayOrphans(metering, db.strategies, tenant, period, sums.matchedIds);
    var all := found + orphans;
    var identity := sums.matched + sums.orphan + sums.estimated + sums.unattributed == total;
    var aggregates := AggregateOk(sums.aggs);
    AggregatesDecide(sums.aggs, rows, metering);
    var pass := !(sums.tokenMismatch || sums.attributionMismatch || !identity || !aggregates);
    r := Ran(ReconRun(tenant, period, pass, sums.matchedCount, |all|, sums.matched, sums.orphan,
                      sums.estimated, sums.unattributed, total), all);
  }

  lemma AggregatesDecide(aggs: map<AggKey, AggPair>, rows: seq<CostRow>, metering: seq<Metering>)
    requires Aggregates(aggs, rows, metering)
    ensures (forall k :: k in aggs ==> Balanced(aggs[k])) <==> AggregatesBalance(rows, metering)
  {
    forall k
      ensures Balanced(AggIn(rows, metering, k)) <==> (k in aggs ==> Balanced(aggs[k]))
    {
      assert AggregateAt(aggs, rows, metering, k);
    }
  }

  /** What a run reports about the client set. */
  ghost predicate Reports(r: Outcome, tenant: string, period: string, rows: seq<CostRow>, metering: seq<Metering>,
                          strategies: map<string, string>, total: real) {
    && r.Ran? && r.run.tenant == tenant && r.run.period == period && r.run.total == total
    && (r.run.pass <==> Passes(rows, metering, total))
    && r.run.matched == SumIn(rows, metering, Matched) && r.run.orphan == SumIn(rows, metering, Orphan)
    && r.run.estimated == SumIn(rows, metering, Estimated)
    && r.run.unattributed == SumIn(rows, metering, Unattributed)
    && r.run.matchedCount == CountMatched(rows, metering)
    && r.discrepancies == AllFound(rows, metering)
                          + OrphansOf(metering, strategies, tenant, period, MatchedIds(rows, metering))
    && r.run.discrepancies == |r.discrepancies|
  }

  // ----- What a run means -----

  /** Equal tokens pair by pair make every aggregate balance. */
  lemma {:induction false} PairsBalanceAggregates(rows: seq<CostRow>, metering: seq<Metering>, k: AggKey)
    requires forall i :: 0 <= i < |rows| ==> !TokensDiffer(rows[i], metering)
    ensures Balanced(AggIn(rows, metering, k))
  {
    if rows != [] {
      PairsBalanceAggregates(rows[..|rows| - 1], metering, k);
      assert !TokensDiffer(rows[|rows| - 1], metering);
    }
  }

  /** Over its own window's rows a run passes exactly when no row's gateway record disagrees. */
  lemma PassesWhenNothingDisagrees(rows: seq<CostRow>, metering: seq<Metering>)
    ensures Passes(rows, metering, SumCost(rows)) <==> forall i :: 0 <= i < |rows| ==> !Disagrees(rows[i], metering)
  {
    ClassesPartition(rows, metering);
    forall i | 0 <= i < |rows|
      ensures !Disagrees(rows[i], metering)
              <==> !TokensDiffer(rows[i], metering) && !Misattributed(rows[i], metering)
    {
    }
    if forall i :: 0 <= i < |rows| ==> !Disagrees(rows[i], metering) {
      forall k
        ensures Balanced(AggIn(rows, metering, k))
      {
        PairsBalanceAggregates(rows, metering, k);
      }
    }
  }

  /**
   In every run of the store, reconciling a closed period reads back the close's own
   rows; the four class sums reproduce the invoice total; and the run passes exactly
   when no non-estimated row with a gateway record disagrees on strategy or tokens.
   */
  lemma ReconcilesItsClose(ops: seq<Op>, metering: seq<Metering>, tenant: string, period: string, r: Outcome)
    requires Possible(ops)
    requires var db := RunOf(ops);
      var i, j := FindPeriod(db.periods, tenant, period), FindInvoice(db.invoices, tenant, period);
      && i.Some? && j.Some?
      && Reports(r, tenant, period, BilledRows(db, i.value), metering, db.strategies, db.invoices[j.value].total)
    ensures r.run.matched + r.run.orphan + r.run.estimated + r.run.unattributed == r.run.total
    ensures var db := RunOf(ops); var i := FindPeriod(db.periods, tenant, period).value;
      var rows := BilledRows(db, i);
      && i < |db.invoices| && db.invoices[i] == InvoiceOf(tenant, period, rows)
      && (r.run.pass <==> forall k :: 0 <= k < |rows| ==> !Disagrees(rows[k], metering))
  {
    InvoicesMatchTheirWindows(ops);
    var db := RunOf(ops);
    var i := FindPeriod(db.periods, tenant, period).value;
    var rows := BilledRows(db, i);
    InvoiceIsWithItsPeriod(db.periods, db.invoices, tenant, period);
    assert InvoiceAt(db, i);
    InvoiceTotalIsExact(tenant, period, rows);
    ClassesPartition(rows, metering);
    PassesWhenNothingDisagrees(rows, metering);
  }

  /** In every run a closed period has its invoice. */
  lemma ClosedHasItsInvoice(ops: seq<Op>, tenant: string, period: string)
    requires IsClosed(RunOf(ops).periods, tenant, period)
    ensures FindInvoice(RunOf(ops).invoices, tenant, period).Some?
  {
    RunCounts(ops);
    InvoiceIsWithItsPeriod(RunOf(ops).periods, RunOf(ops).invoices, tenant, period);
  }
}
