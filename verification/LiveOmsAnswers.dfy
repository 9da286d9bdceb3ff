/**
 The live-order store written out: which status replaces which, what a venue fill leaves
 on its order, and which claim wins in every run.
 */
module LiveOmsAnswers {
  import opened Wrappers
  import opened Decimals
  import opened LiveOms
  import opened LiveOmsRuns

  // ----- Status -----

  predicate IsTerminal(s: Status) {
    s == Filled || s == Canceled || s == Rejected || s == Expired
  }

  /** The statuses that may replace one: later ones only, and none after a terminal one. */
  predicate Replaces(status: Status, was: Status) {
    match was
    case PendingNew => status == Open || status == PartiallyFilled || IsTerminal(status)
    case Open => status == PartiallyFilled || IsTerminal(status)
    case PartiallyFilled => IsTerminal(status)
    case Unknown(_) => status == Open || status == PartiallyFilled || IsTerminal(status)
    case _ => false
  }

  function After(was: Status, status: Status): Status {
    if Replaces(status, was) then status else was
  }

  lemma AdvancesExactly(was: Status, status: Status)
    requires !status.Unknown?
    ensures Advanced(was, status) == After(was, status)
  {
  }

  /** A status write: two refusals, or the order with the later of the two statuses and nothing else changed. */
  lemma StatusAnswersExactly(orders: map<string, LiveOrder>, id: string, status: Status)
    ensures var (orders', answer) := ApplyStatus(orders, id, status);
      if status.Unknown? then orders' == orders && answer.UnknownStatus?
      else if id !in orders then orders' == orders && answer.NotFound?
      else
        var now := After(orders[id].status, status);
        answer == Done(now) && orders' == orders[id := LiveOrder(now, orders[id].price, orders[id].filledAt)]
  {
    if !status.Unknown? && id in orders {
      AdvancesExactly(orders[id].status, status);
    }
  }

  // ----- Fills -----

  /** Quantity of an order's fills. */
  function QtyOf(fills: seq<VenueFill>, order: string): real {
    if fills == [] then 0.0
    else
      var rest, f := QtyOf(fills[..|fills| - 1], order), fills[|fills| - 1];
      if f.order == order then rest + f.qty else rest
  }

  /** Quantity times price, summed over an order's fills. */
  function NotionalOf(fills: seq<VenueFill>, order: string): real {
    if fills == [] then 0.0
    else
      var rest, f := NotionalOf(fills[..|fills| - 1], order), fills[|fills| - 1];
      if f.order == order then rest + f.qty * f.price else rest
  }

  lemma {:induction false} BasketIsTheSums(fills: seq<VenueFill>, order: string)
    ensures BasketOf(fills, order) == Basket(QtyOf(fills, order), NotionalOf(fills, order))
  {
    if fills != [] {
      BasketIsTheSums(fills[..|fills| - 1], order);
    }
  }

  /** Half away from zero at 8 decimals, of notional over quantity. */
  ghost predicate IsVwap(price: real, fills: seq<VenueFill>, order: string) {
    QtyOf(fills, order) > 0.0 && price == Round8(NotionalOf(fills, order) / QtyOf(fills, order))
  }

  predicate KeyUsed(fills: seq<VenueFill>, key: TradeKey) {
    exists f :: f in fills && f.key == key
  }

  lemma SeenIsUsed(fills: seq<VenueFill>, key: TradeKey)
    ensures Seen(fills, key) <==> KeyUsed(fills, key)
  {
    if Seen(fills, key) {
      var i :| 0 <= i < |fills| && fills[i].key == key;
      assert fills[i] in fills;
    }
  }

  lemma {:induction false} QtyPush(fills: seq<VenueFill>, f: VenueFill)
    ensures QtyOf(fills + [f], f.order) == QtyOf(fills, f.order) + f.qty
  {
    assert (fills + [f])[..|fills|] == fills;
  }

  /**
   A venue fill is refused for a text that is no status, then silently dropped for a key
   already booked, then refused for an unknown order, for a total quantity that is not
   positive, or when its accounting fails; otherwise it is booked, and its order gets the
   later status, the average price of all its fills, and the fill's own time.
   */
  lemma FillAnswersExactly(db: Db, d: Delivery)
    ensures var (db', answer) := ApplyFill(db, d); var f, order := d.fill, d.fill.order;
      if d.status.Unknown? then db' == db && answer.UnknownStatus?
      else if KeyUsed(db.fills, f.key) then db' == db && answer.Replay?
      else if order !in db.orders then db' == db && answer.NotFound?
      else if QtyOf(db.fills, order) + f.qty <= 0.0 then db' == db && answer.NoQuantity?
      else if !d.accounted then db' == db && answer.NotAccounted?
      else
        && answer.Booked? && db'.fills == db.fills + [f]
        && order in db'.orders && db'.orders[order].price.Some?
        && db'.orders == db.orders[order := LiveOrder(After(db.orders[order].status, d.status),
                                                      db'.orders[order].price, Some(f.at))]
        && IsVwap(db'.orders[order].price.value, db.fills + [f], order)
  {
    SeenIsUsed(db.fills, d.fill.key);
    QtyPush(db.fills, d.fill);
    BasketIsTheSums(db.fills + [d.fill], d.fill.order);
    if !d.status.Unknown? && d.fill.order in db.orders {
      AdvancesExactly(db.orders[d.fill.order].status, d.status);
    }
  }

  // ----- Claims -----

  /** No operation of the run is on the attempt. */
  ghost predicate NoneOn(ops: seq<ClaimOp>, id: string) {
    forall i :: 0 <= i < |ops| ==> ops[i].id != id
  }

  predicate Spent(intent: Intent) {
    intent.claimed.Some? || intent.revoked.Some?
  }

  lemma StepSpends(c: Claims, op: ClaimOp, id: string)
    ensures var c' := NextClaims(c, op);
      && c'.intents.Keys == c.intents.Keys
      && (id in c.intents && op.id != id ==> c'.intents[id] == c.intents[id])
      && (id in c.intents && (op.id == id || Spent(c.intents[id])) ==> Spent(c'.intents[id]))
  {
  }

  /** An attempt is as it was until an operation is on it, and spent from then on. */
  lemma {:induction false} SpentByOperations(intents: map<string, Intent>, ops: seq<ClaimOp>, id: string)
    ensures var c := ClaimRun(intents, ops);
      && c.intents.Keys == intents.Keys
      && (id in intents && NoneOn(ops, id) ==> c.intents[id] == intents[id])
      && (id in intents && (!NoneOn(ops, id) || Spent(intents[id])) ==> Spent(c.intents[id]))
  {
    if ops != [] {
      var before, last := ops[..|ops| - 1], ops[|ops| - 1];
      SpentByOperations(intents, before, id);
      StepSpends(ClaimRun(intents, before), last, id);
      assert forall i :: 0 <= i < |before| ==> before[i] == ops[i];
      if NoneOn(before, id) && last.id != id {
        assert NoneOn(ops, id);
      }
    }
  }

  /**
   In every run a claim answers none exactly for an unknown attempt, and wins exactly when
   nobody has claimed or revoked the attempt before, in the table or in the run.
   */
  lemma ClaimAnswersExactly(intents: map<string, Intent>, ops: seq<ClaimOp>, id: string, at: int)
    ensures var c := ClaimRun(intents, ops);
      var (intents', won) := Claim(c.intents, id, at);
      && (won.None? <==> id !in intents)
      && (won == Some(true) <==> id in intents && intents[id] == Intent(None, None) && NoneOn(ops, id))
      && (won == Some(true) ==> intents' == c.intents[id := Intent(Some(at), None)])
      && (won != Some(true) ==> intents' == c.intents)
  {
    SpentByOperations(intents, ops, id);
  }

  /** A revocation of a known attempt keeps its first time and its claim. */
  lemma RevokeAnswersExactly(intents: map<string, Intent>, id: string, at: int)
    ensures var (intents', known) := Revoke(intents, id, at);
      && (known <==> id in intents)
      && intents' == if known && intents[id].revoked == None
                     then intents[id := Intent(intents[id].claimed, Some(at))] else intents
  {
  }
}
