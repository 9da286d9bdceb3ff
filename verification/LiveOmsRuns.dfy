/**
 The VWAP between the fill prices, the monotone status machine over runs, and the
 exclusion of claims.
 */
module LiveOmsRuns {
  import opened Wrappers
  import opened Decimals
  import opened LiveOms

  lemma BasketPush(fills: seq<VenueFill>, f: VenueFill, order: string)
    ensures BasketOf(fills + [f], order) == Add(BasketOf(fills, order), f, order)
  {
    assert (fills + [f])[..|fills|] == fills;
  }

  // ----- The price stays between the fills -----

  ghost predicate Priced(fills: seq<VenueFill>, order: string, lo: real, hi: real) {
    forall i :: 0 <= i < |fills| && fills[i].order == order ==>
      fills[i].qty >= 0.0 && lo <= fills[i].price <= hi
  }

  lemma NotionalBetween(f: VenueFill, lo: real, hi: real)
    requires f.qty >= 0.0 && lo <= f.price <= hi
    ensures lo * f.qty <= Notional(f) <= hi * f.qty
  {
    if f.qty > 0.0 {
      Scale(lo, f.price, f.qty);
      Scale(f.price, hi, f.qty);
    }
  }

  /** The quantity is worth its notional at some price between lo and hi. */
  ghost predicate Worth(b: Basket, lo: real, hi: real) {
    At(b, lo) <= b.notional <= At(b, hi)
  }

  ghost function At(b: Basket, price: real): real {
    price * b.qty
  }

  lemma {:induction false} BasketBetween(fills: seq<VenueFill>, order: string, lo: real, hi: real)
    requires Priced(fills, order, lo, hi)
    ensures Worth(BasketOf(fills, order), lo, hi)
  {
    if fills != [] {
      var before, last := fills[..|fills| - 1], fills[|fills| - 1];
      BasketBetween(before, order, lo, hi);
      if last.order == order {
        NotionalBetween(last, lo, hi);
        var b := BasketOf(before, order);
        assert lo * (b.qty + last.qty) == lo * b.qty + lo * last.qty;
        assert hi * (b.qty + last.qty) == hi * b.qty + hi * last.qty;
      }
    }
  }

  lemma QuotientBetween(n: real, q: real, lo: real, hi: real)
    requires q > 0.0 && lo * q <= n <= hi * q
    ensures lo <= n / q <= hi
  {
    DivideBack(n, q);
    Scale(lo, n / q, q);
    Scale(n / q, hi, q);
  }

  lemma RoundedBetween(b: Basket, least: VenueFill, greatest: VenueFill)
    requires Vwap(b).Some? && Worth(b, least.price, greatest.price)
    ensures Round8(least.price) <= Vwap(b).value <= Round8(greatest.price)
  {
    var lo, hi, x := least.price, greatest.price, b.notional / b.qty;
    QuotientBetween(b.notional, b.qty, lo, hi);
    Round8Monotone(lo, x);
    Round8Monotone(x, hi);
  }

  lemma {:induction false} Extremes(fills: seq<VenueFill>, order: string) returns (l: nat, h: nat)
    requires exists i :: 0 <= i < |fills| && fills[i].order == order
    ensures l < |fills| && h < |fills| && fills[l].order == order && fills[h].order == order
    ensures forall i :: 0 <= i < |fills| && fills[i].order == order ==>
              fills[l].price <= fills[i].price <= fills[h].price
  {
    var n := |fills| - 1;
    if exists i :: 0 <= i < n && fills[i].order == order {
      var k :| 0 <= k < n && fills[k].order == order;
      assert fills[..n][k].order == order;
      l, h := Extremes(fills[..n], order);
      assert forall i :: 0 <= i < n ==> fills[..n][i] == fills[i];
      if fills[n].order == order {
        if fills[n].price < fills[l].price {
          l := n;
        }
        if fills[n].price > fills[h].price {
          h := n;
        }
      }
    } else {
      l, h := n, n;
    }
  }

  ghost predicate NoNegatives(fills: seq<VenueFill>, order: string) {
    forall i :: 0 <= i < |fills| && fills[i].order == order ==> fills[i].qty >= 0.0
  }

  /** The rounded VWAP lies between the least and the greatest fill price, rounded. */
  lemma VwapIsBetweenPrices(fills: seq<VenueFill>, order: string)
    requires NoNegatives(fills, order) && Vwap(BasketOf(fills, order)).Some?
    ensures LiesBetween(fills, order)
  {
    BasketNeedsFills(fills, order);
    var l, h := Extremes(fills, order);
    BasketBetween(fills, order, fills[l].price, fills[h].price);
    RoundedBetween(BasketOf(fills, order), fills[l], fills[h]);
    assert Spans(fills, order, l, h);
  }

  /** The rounded VWAP, if there is one, lies between the least and the greatest fill price, rounded. */
  ghost predicate LiesBetween(fills: seq<VenueFill>, order: string) {
    var v := Vwap(BasketOf(fills, order));
    v.Some? ==> exists l, h :: Spans(fills, order, l, h) && Round8(fills[l].price) <= v.value <= Round8(fills[h].price)
  }

  /** The least and the greatest price of the order's fills. */
  ghost predicate Spans(fills: seq<VenueFill>, order: string, l: int, h: int) {
    && 0 <= l < |fills| && 0 <= h < |fills| && fills[l].order == fills[h].order == order
    && forall i :: 0 <= i < |fills| && fills[i].order == order ==> fills[l].price <= fills[i].price <= fills[h].price
  }

  lemma {:induction false} BasketNeedsFills(fills: seq<VenueFill>, order: string)
    requires BasketOf(fills, order).qty != 0.0
    ensures exists i :: 0 <= i < |fills| && fills[i].order == order
  {
    var n := |fills| - 1;
    if fills[n].order != order {
      BasketNeedsFills(fills[..n], order);
      var i :| 0 <= i < n && fills[..n][i].order == order;
      assert fills[i].order == order;
    }
  }

  /** Prices of at most 8 decimals are not moved, and bound the VWAP as they stand. */
  lemma VwapIsBetweenGridPrices(fills: seq<VenueFill>, order: string)
    requires NoNegatives(fills, order) && Vwap(BasketOf(fills, order)).Some? && AllOnGrid(fills)
    ensures exists l, h :: Spans(fills, order, l, h)
              && fills[l].price <= Vwap(BasketOf(fills, order)).value <= fills[h].price
  {
    VwapIsBetweenPrices(fills, order);
    var l, h :| Spans(fills, order, l, h)
                && Round8(fills[l].price) <= Vwap(BasketOf(fills, order)).value <= Round8(fills[h].price);
    Round8FixesGrid(fills[l].price);
    Round8FixesGrid(fills[h].price);
  }

  /** Off the grid they need not: one fill's own price is rounded away from it. */
  lemma VwapLeavesPricesOffGrid(f: VenueFill)
    requires f.qty == 1.0 && f.price == 0.000000005
    ensures Vwap(BasketOf([f], f.order)) == Some(0.00000001)
  {
    BasketPush([], f, f.order);
    assert [] + [f] == [f];
    assert (f.price * 100000000.0 + 0.5).Floor == 1;
  }

  /** The same fills at other prices. */
  ghost predicate SameButPrices(a: seq<VenueFill>, b: seq<VenueFill>) {
    |a| == |b| && forall i :: 0 <= i < |a| ==> b[i] == a[i].(price := b[i].price)
  }

  ghost predicate AllOnGrid(fills: seq<VenueFill>) {
    forall i :: 0 <= i < |fills| ==> OnGrid(fills[i].price)
  }

  lemma {:induction false} QtyIgnoresPrices(a: seq<VenueFill>, b: seq<VenueFill>, order: string)
    requires SameButPrices(a, b)
    ensures BasketOf(a, order).qty == BasketOf(b, order).qty
  {
    if a != [] {
      var n := |a| - 1;
      QtyIgnoresPrices(a[..n], b[..n], order);
      assert b[n] == a[n].(price := b[n].price);
    }
  }

  /** Every fill at a price of zero but one. */
  function OnlyPriced(fills: seq<VenueFill>, i: nat, price: real): (r: seq<VenueFill>)
    ensures |r| == |fills|
    ensures forall j :: 0 <= j < |r| ==> r[j] == fills[j].(price := if j == i then price else 0.0)
  {
    seq(|fills|, j requires 0 <= j < |fills| => fills[j].(price := if j == i then price else 0.0))
  }

  lemma {:induction false} OnlyItsNotional(fills: seq<VenueFill>, i: nat, price: real, order: string, n: nat)
    requires n <= |fills| && i < |fills| && fills[i].order == order
    ensures BasketOf(OnlyPriced(fills, i, price)[..n], order).notional == if i < n then fills[i].qty * price else 0.0
  {
    if n > 0 {
      var priced := OnlyPriced(fills, i, price);
      OnlyItsNotional(fills, i, price, order, n - 1);
      assert priced[..n] == priced[..n - 1] + [priced[n - 1]];
      BasketPush(priced[..n - 1], priced[n - 1], order);
    }
  }

  lemma WholeIsOnGrid(n: int)
    ensures OnGrid(n as real)
  {
    var m := n * 100000000;
    assert (m as real).Floor == m;
    assert n as real * 100000000.0 == m as real;
  }

  lemma HighEnough(q: real, total: real) returns (k: nat)
    requires q < 0.0 && total > 0.0
    ensures q * (k as real) <= -total
  {
    var x := total / -q;
    DivideBack(total, -q);
    Scale(0.0, x, -q);
    k := x.Floor + 1;
    Scale(x, k as real, -q);
    assert x * -q == total && (k as real) * -q == -(q * (k as real));
  }

  lemma VwapBelowZero(b: Basket)
    requires b.qty > 0.0 && b.notional <= -b.qty
    ensures Vwap(b).Some? && Vwap(b).value < 0.0
  {
    var x := b.notional / b.qty;
    DivideBack(b.notional, b.qty);
    Scale(x, -1.0, b.qty);
    Round8Monotone(x, -1.0);
    WholeIsOnGrid(-1);
    Round8FixesGrid(-1.0);
  }

  lemma BelowEveryPrice(fills: seq<VenueFill>, order: string)
    requires forall i :: 0 <= i < |fills| ==> fills[i].price >= 0.0
    requires Vwap(BasketOf(fills, order)).Some? && Vwap(BasketOf(fills, order)).value < 0.0
    ensures !LiesBetween(fills, order)
  {
    forall l | 0 <= l < |fills|
      ensures Round8(fills[l].price) >= 0.0
    {
      Round8Monotone(0.0, fills[l].price);
    }
  }

  /** A negative quantity at a high enough price drags the VWAP below every price. */
  lemma NegativeDragsVwap(fills: seq<VenueFill>, order: string, i: nat) returns (priced: seq<VenueFill>)
    requires i < |fills| && fills[i].order == order && fills[i].qty < 0.0 && BasketOf(fills, order).qty > 0.0
    ensures SameButPrices(fills, priced) && AllOnGrid(priced) && !LiesBetween(priced, order)
  {
    var k := HighEnough(fills[i].qty, BasketOf(fills, order).qty);
    priced := OnlyPriced(fills, i, k as real);
    GridPrices(fills, i, k);
    QtyIgnoresPrices(fills, priced, order);
    OnlyItsNotional(fills, i, k as real, order, |fills|);
    assert priced[..|fills|] == priced;
    VwapBelowZero(BasketOf(priced, order));
    BelowEveryPrice(priced, order);
  }

  lemma GridPrices(fills: seq<VenueFill>, i: nat, k: nat)
    ensures AllOnGrid(OnlyPriced(fills, i, k as real)) && SameButPrices(fills, OnlyPriced(fills, i, k as real))
  {
    WholeIsOnGrid(k);
    WholeIsOnGrid(0);
  }

  /**
   Exactly when the VWAP of an order's fills lies between their prices, rounded, for all
   prices: no quantity is negative.
   */
  lemma VwapBoundsHoldExactly(fills: seq<VenueFill>, order: string)
    requires BasketOf(fills, order).qty > 0.0
    ensures (forall priced :: SameButPrices(fills, priced) ==> LiesBetween(priced, order)) <==> NoNegatives(fills, order)
  {
    if NoNegatives(fills, order) {
      forall priced: seq<VenueFill> | SameButPrices(fills, priced)
        ensures LiesBetween(priced, order)
      {
        QtyIgnoresPrices(fills, priced, order);
        assert forall i :: 0 <= i < |priced| ==> priced[i] == fills[i].(price := priced[i].price);
        VwapIsBetweenPrices(priced, order);
      }
    } else {
      var i :| 0 <= i < |fills| && fills[i].order == order && fills[i].qty < 0.0;
      var priced := NegativeDragsVwap(fills, order, i);
    }
  }

  // ----- The status machine over runs -----

  datatype Op = SetStatus(id: string, status: Status) | Book(d: Delivery)

  function Next(db: Db, op: Op): Db {
    match op
    case SetStatus(id, status) => db.(orders := ApplyStatus(db.orders, id, status).0)
    case Book(d) => ApplyFill(db, d).0
  }

  function RunFrom(db: Db, ops: seq<Op>): Db {
    if ops == [] then db else Next(RunFrom(db, ops[..|ops| - 1]), ops[|ops| - 1])
  }

  /** A later status of one order: higher in rank, or the same. */
  predicate Follows(now: Status, was: Status) {
    now == was || Rank(now) > Rank(was)
  }

  /** In every run a status only rises in rank, and a terminal one never changes. */
  lemma {:induction false} StatusOnlyRises(db: Db, ops: seq<Op>, id: string)
    requires id in db.orders
    ensures id in RunFrom(db, ops).orders
    ensures var was, now := db.orders[id].status, RunFrom(db, ops).orders[id].status;
      Follows(now, was) && (Rank(was) == 3 ==> now == was)
  {
    if ops != [] {
      StatusOnlyRises(db, ops[..|ops| - 1], id);
    }
  }

  // ----- Claims -----

  datatype ClaimOp = TakeClaim(id: string, at: int) | RevokeClaim(id: string, at: int)

  /** The intents and the claims won so far, as positions in the run. */
  datatype Claims = Claims(intents: map<string, Intent>, won: seq<string>)

  function NextClaims(c: Claims, op: ClaimOp): Claims {
    match op
    case TakeClaim(id, at) =>
      var (intents, won) := Claim(c.intents, id, at);
      Claims(intents, if won == Some(true) then c.won + [id] else c.won)
    case RevokeClaim(id, at) => c.(intents := Revoke(c.intents, id, at).0)
  }

  function ClaimRun(intents: map<string, Intent>, ops: seq<ClaimOp>): Claims {
    if ops == [] then Claims(intents, [])
    else NextClaims(ClaimRun(intents, ops[..|ops| - 1]), ops[|ops| - 1])
  }

  ghost predicate Exclusive(intents: map<string, Intent>, c: Claims) {
    && c.intents.Keys == intents.Keys
    && (forall i, j :: 0 <= i < j < |c.won| ==> c.won[i] != c.won[j])
    && (forall i :: 0 <= i < |c.won| ==> c.won[i] in c.intents && c.intents[c.won[i]].claimed.Some?)
    && (forall id :: id in intents && intents[id].claimed.Some? ==> c.intents[id].claimed.Some?)
  }

  /** In every run of claims and revocations each attempt is won at most once. */
  lemma {:induction false} ClaimIsWonOnce(intents: map<string, Intent>, ops: seq<ClaimOp>)
    ensures Exclusive(intents, ClaimRun(intents, ops))
  {
    if ops != [] {
      ClaimIsWonOnce(intents, ops[..|ops| - 1]);
    }
  }

  /** Once revoked, an attempt stays revoked and is never won again. */
  lemma {:induction false} RevokedIsNeverWon(intents: map<string, Intent>, ops: seq<ClaimOp>, id: string)
    requires id in intents && intents[id].revoked.Some?
    ensures var c := ClaimRun(intents, ops);
      && id in c.intents && c.intents[id] == intents[id]
      && forall i :: 0 <= i < |c.won| ==> c.won[i] != id
  {
    if ops != [] {
      RevokedIsNeverWon(intents, ops[..|ops| - 1], id);
    }
  }
}
