/**
 Deliveries of venue fills in any order and with any repeats: exactly when they leave
 the same fills, status and price.
 */
module LiveOmsDeliveries {
  import opened MapSums
  import opened LiveOms
  import opened LiveOmsRuns

  function Deliver(db: Db, ds: seq<Delivery>): Db {
    if ds == [] then db else ApplyFill(Deliver(db, ds[..|ds| - 1]), ds[|ds| - 1]).0
  }

  /** A trade and the status the venue reports with it. */
  datatype Trade = Trade(fill: VenueFill, status: Status)

  /** The trades whose accounting succeeded; a failed delivery leaves no trace. */
  function Trades(ds: seq<Delivery>): set<Trade> {
    set d | d in ds && d.accounted :: Trade(d.fill, d.status)
  }

  /** A trade key names one trade with one fill status. */
  ghost predicate Consistent(trades: set<Trade>) {
    && (forall t :: t in trades ==> t.status.PartiallyFilled? || t.status.Filled?)
    && (forall t, u :: t in trades && u in trades && t.fill.key == u.fill.key ==> t == u)
  }

  // ----- Reachable stores -----

  predicate HasFills(fills: seq<VenueFill>, order: string) {
    exists i :: 0 <= i < |fills| && fills[i].order == order
  }

  ghost predicate NoRepeatedKeys(fills: seq<VenueFill>) {
    forall i, j :: 0 <= i < j < |fills| ==> fills[i].key != fills[j].key
  }

  /** Keys are distinct, and an order with fills has a positive quantity: each booking checks its sum. */
  ghost predicate Sound(db: Db) {
    NoRepeatedKeys(db.fills) && forall order :: SoundAt(db.fills, order)
  }

  ghost predicate SoundAt(fills: seq<VenueFill>, order: string) {
    if HasFills(fills, order) then BasketOf(fills, order).qty > 0.0 else BasketOf(fills, order) == Basket(0.0, 0.0)
  }

  lemma HasFillsPush(fills: seq<VenueFill>, f: VenueFill, order: string)
    ensures HasFills(fills + [f], order) <==> HasFills(fills, order) || f.order == order
  {
    var all := fills + [f];
    assert all[|fills|] == f && forall i :: 0 <= i < |fills| ==> all[i] == fills[i];
    if HasFills(fills, order) {
      var i :| 0 <= i < |fills| && fills[i].order == order;
      assert all[i].order == order;
    }
  }

  /** When one delivery is booked. */
  predicate Books(db: Db, d: Delivery) {
    && !d.status.Unknown? && !Seen(db.fills, d.fill.key) && d.fill.order in db.orders && d.accounted
    && BasketOf(db.fills, d.fill.order).qty + d.fill.qty > 0.0
  }

  lemma PricedExactly(fills: seq<VenueFill>, f: VenueFill)
    ensures BasketOf(fills + [f], f.order).qty == BasketOf(fills, f.order).qty + f.qty
    ensures Vwap(BasketOf(fills + [f], f.order)).Some? <==> BasketOf(fills, f.order).qty + f.qty > 0.0
  {
    BasketPush(fills, f, f.order);
  }

  lemma BooksExactly(db: Db, d: Delivery)
    ensures ApplyFill(db, d).0.fills == if Books(db, d) then db.fills + [d.fill] else db.fills
    ensures ApplyFill(db, d).0.orders.Keys == db.orders.Keys
    ensures !Books(db, d) ==> ApplyFill(db, d).0 == db
  {
    PricedExactly(db.fills, d.fill);
  }

  lemma NewKeyStaysDistinct(fills: seq<VenueFill>, f: VenueFill)
    requires NoRepeatedKeys(fills) && !Seen(fills, f.key)
    ensures NoRepeatedKeys(fills + [f])
  {
  }

  /** Every delivery keeps the store sound, whatever its quantity. */
  lemma DeliveryKeepsSound(db: Db, d: Delivery)
    requires Sound(db)
    ensures Sound(ApplyFill(db, d).0)
  {
    BooksExactly(db, d);
    if Books(db, d) {
      NewKeyStaysDistinct(db.fills, d.fill);
      forall order
        ensures SoundAt(db.fills + [d.fill], order)
      {
        assert SoundAt(db.fills, order);
        HasFillsPush(db.fills, d.fill, order);
        BasketPush(db.fills, d.fill, order);
      }
    }
  }

  lemma NoFillsIsSound(orders: map<string, LiveOrder>)
    ensures Sound(Db(orders, []))
  {
  }

  lemma {:induction false} RunKeepsSound(db: Db, ds: seq<Delivery>)
    requires Sound(db)
    ensures Sound(Deliver(db, ds)) && Deliver(db, ds).orders.Keys == db.orders.Keys
  {
    if ds != [] {
      RunKeepsSound(db, ds[..|ds| - 1]);
      DeliveryKeepsSound(Deliver(db, ds[..|ds| - 1]), ds[|ds| - 1]);
      BooksExactly(Deliver(db, ds[..|ds| - 1]), ds[|ds| - 1]);
    }
  }

  // ----- Sums over sets of fills -----

  ghost function Sum(s: set<VenueFill>): real {
    Total(map f | f in s :: f.qty)
  }

  lemma SumAdd(s: set<VenueFill>, f: VenueFill)
    requires f !in s
    ensures Sum(s + {f}) == Sum(s) + f.qty
  {
    var m := map x | x in s :: x.qty;
    assert (map x | x in s + {f} :: x.qty) == m[f := f.qty];
    TotalUpdate(m, f, f.qty);
  }

  lemma {:induction false} SumJoins(a: set<VenueFill>, b: set<VenueFill>)
    requires a !! b
    ensures Sum(a + b) == Sum(a) + Sum(b)
    decreases |b|
  {
    if b == {} {
      assert a + b == a && (map f: VenueFill | f in b :: f.qty) == map[];
    } else {
      var f :| f in b;
      SumJoins(a, b - {f});
      SumAdd(a + (b - {f}), f);
      SumAdd(b - {f}, f);
      assert a + (b - {f}) + {f} == a + b && b - {f} + {f} == b;
    }
  }

  lemma {:induction false} SumSign(s: set<VenueFill>)
    ensures (forall f :: f in s ==> f.qty >= 0.0) ==> Sum(s) >= 0.0
    ensures (forall f :: f in s ==> f.qty <= 0.0) ==> Sum(s) <= 0.0
    decreases |s|
  {
    if s == {} {
      assert (map f: VenueFill | f in s :: f.qty) == map[];
    } else {
      var f :| f in s;
      SumSign(s - {f});
      SumAdd(s - {f}, f);
      assert s - {f} + {f} == s;
    }
  }

  /** A part of rising and dropping fills weighs between all the drops and all the rises. */
  lemma SumBetween(part: set<VenueFill>, rises: set<VenueFill>, drops: set<VenueFill>)
    requires part <= rises + drops
    requires (forall f :: f in rises ==> f.qty > 0.0) && (forall f :: f in drops ==> f.qty <= 0.0)
    ensures Sum(drops) <= Sum(part) <= Sum(rises)
  {
    var up, down := part * rises, part * drops;
    assert part == up + down && rises == up + (rises - part) && drops == down + (drops - part);
    SumJoins(up, down);
    SumJoins(up, rises - part);
    SumJoins(down, drops - part);
    SumSign(up);
    SumSign(down);
    SumSign(rises - part);
    SumSign(drops - part);
  }

  // ----- Which trades an order keeps -----

  /** The order's trades whose key the store has not seen. */
  ghost function Fresh(db: Db, trades: set<Trade>, order: string): set<VenueFill> {
    set t | t in trades && t.fill.order == order && order in db.orders && !Seen(db.fills, t.fill.key) :: t.fill
  }

  ghost function Rises(db: Db, trades: set<Trade>, order: string): set<VenueFill> {
    set f | f in Fresh(db, trades, order) && f.qty > 0.0
  }

  /** The most quantity the order can ever hold. */
  ghost function Most(db: Db, trades: set<Trade>, order: string): real {
    BasketOf(db.fills, order).qty + Sum(Rises(db, trades, order))
  }

  /** The trades without a positive quantity that some order of delivery books. */
  ghost function Drops(db: Db, trades: set<Trade>, order: string): set<VenueFill> {
    set f | f in Fresh(db, trades, order) && f.qty <= 0.0 && Most(db, trades, order) + f.qty > 0.0
  }

  ghost function Kept(db: Db, trades: set<Trade>, order: string): set<VenueFill> {
    Rises(db, trades, order) + Drops(db, trades, order)
  }

  /** The stored quantity carries all of those trades at once. */
  ghost predicate Steady(db: Db, trades: set<Trade>, order: string) {
    Drops(db, trades, order) == {}
    || BasketOf(db.fills, order).qty + Sum(Drops(db, trades, order)) > 0.0
  }

  // ----- What a run of deliveries books -----

  ghost function NewFills(db: Db, db': Db, order: string): set<VenueFill> {
    set f | f in db'.fills && f !in db.fills && f.order == order
  }

  ghost predicate Names(trades: set<Trade>, f: VenueFill) {
    exists t :: t in trades && t.fill == f
  }

  /** Old fills stay, new ones were delivered, and the order's quantity is the sum. */
  ghost predicate Grown(db: Db, db': Db, trades: set<Trade>, order: string) {
    && (forall f :: f in db.fills ==> f in db'.fills)
    && (forall f :: f in db'.fills && f !in db.fills ==> Names(trades, f) && !Seen(db.fills, f.key))
    && BasketOf(db'.fills, order).qty == BasketOf(db.fills, order).qty + Sum(NewFills(db, db', order))
  }

  lemma TradesPush(ds: seq<Delivery>, d: Delivery)
    ensures Trades(ds + [d]) == if d.accounted then Trades(ds) + {Trade(d.fill, d.status)} else Trades(ds)
  {
    assert forall x :: x in ds + [d] <==> x in ds || x == d;
  }

  lemma SeenStays(db: Db, db': Db, key: TradeKey)
    requires forall f :: f in db.fills ==> f in db'.fills
    ensures Seen(db.fills, key) ==> Seen(db'.fills, key)
  {
    if Seen(db.fills, key) {
      var i :| 0 <= i < |db.fills| && db.fills[i].key == key;
      assert db.fills[i] in db'.fills;
    }
  }

  lemma NewFillsPush(db: Db, mid: Db, db': Db, f: VenueFill, order: string)
    requires db'.fills == mid.fills + [f] && f !in mid.fills && f !in db.fills
    ensures NewFills(db, db', order) == NewFills(db, mid, order) + if f.order == order then {f} else {}
  {
    assert forall x :: x in db'.fills <==> x in mid.fills || x == f;
  }

  lemma NewKeyIsNewFill(db: Db, mid: Db, f: VenueFill)
    requires (forall x :: x in db.fills ==> x in mid.fills) && !Seen(mid.fills, f.key)
    ensures f !in mid.fills && f !in db.fills && !Seen(db.fills, f.key)
  {
    SeenStays(db, mid, f.key);
  }

  lemma GrownPush(db: Db, mid: Db, db': Db, before: seq<Delivery>, d: Delivery, order: string)
    requires Grown(db, mid, Trades(before), order)
    requires d.accounted && !Seen(mid.fills, d.fill.key) && db'.fills == mid.fills + [d.fill]
    ensures Grown(db, db', Trades(before + [d]), order) && d.fill !in mid.fills
    ensures NewFills(db, db', order) == NewFills(db, mid, order) + if d.fill.order == order then {d.fill} else {}
  {
    NewKeyIsNewFill(db, mid, d.fill);
    NamesGrow(db, mid, before, d, order);
    TradesPush(before, d);
    assert Trade(d.fill, d.status) in Trades(before + [d]);
    NewFillsPush(db, mid, db', d.fill, order);
    WeightPush(db, mid, db', d.fill, order);
  }

  lemma WeightPush(db: Db, mid: Db, db': Db, f: VenueFill, order: string)
    requires db'.fills == mid.fills + [f] && f !in mid.fills && f !in db.fills
    requires BasketOf(mid.fills, order).qty == BasketOf(db.fills, order).qty + Sum(NewFills(db, mid, order))
    ensures BasketOf(db'.fills, order).qty == BasketOf(db.fills, order).qty + Sum(NewFills(db, db', order))
  {
    BasketPush(mid.fills, f, order);
    NewFillsPush(db, mid, db', f, order);
    if f.order == order {
      SumAdd(NewFills(db, mid, order), f);
    } else {
      assert NewFills(db, db', order) == NewFills(db, mid, order);
    }
  }

  lemma NamesGrow(db: Db, mid: Db, before: seq<Delivery>, d: Delivery, order: string)
    requires Grown(db, mid, Trades(before), order)
    ensures Grown(db, mid, Trades(before + [d]), order)
  {
    TradesPush(before, d);
    forall f | f in mid.fills && f !in db.fills
      ensures Names(Trades(before + [d]), f)
    {
      var t :| t in Trades(before) && t.fill == f;
      assert t in Trades(before + [d]);
    }
  }

  lemma {:induction false} RunGrows(db: Db, ds: seq<Delivery>, order: string)
    ensures Grown(db, Deliver(db, ds), Trades(ds), order)
  {
    if ds == [] {
      assert NewFills(db, db, order) == {};
      assert (map f: VenueFill | f in {} :: f.qty) == map[];
    } else {
      var before, d := ds[..|ds| - 1], ds[|ds| - 1];
      assert ds == before + [d];
      RunGrows(db, before, order);
      BooksExactly(Deliver(db, before), d);
      if Books(Deliver(db, before), d) {
        GrownPush(db, Deliver(db, before), Deliver(db, ds), before, d, order);
      } else {
        NamesGrow(db, Deliver(db, before), before, d, order);
      }
    }
  }

  // ----- A steady order books exactly what it keeps -----

  ghost function Delivered(trades: set<Trade>, kept: set<VenueFill>): set<VenueFill> {
    set f | f in kept && Names(trades, f)
  }

  lemma NamesPush(before: seq<Delivery>, d: Delivery, f: VenueFill)
    ensures Names(Trades(before + [d]), f) <==> Names(Trades(before), f) || (d.accounted && f == d.fill)
  {
    TradesPush(before, d);
    if d.accounted {
      assert Trade(d.fill, d.status) in Trades(before + [d]);
    }
  }

  lemma DeliveredPush(before: seq<Delivery>, d: Delivery, kept: set<VenueFill>)
    ensures Delivered(Trades(before + [d]), kept)
         == Delivered(Trades(before), kept) + if d.accounted && d.fill in kept then {d.fill} else {}
  {
    forall f
      ensures Names(Trades(before + [d]), f) <==> Names(Trades(before), f) || (d.accounted && f == d.fill)
    {
      NamesPush(before, d, f);
    }
  }

  /** A key the run has already seen belongs to this very trade, or to a row that was there before. */
  lemma SeenIsOldOrSame(db: Db, mid: Db, before: seq<Delivery>, d: Delivery, trades: set<Trade>, order: string)
    requires Grown(db, mid, Trades(before), order) && Consistent(trades) && Trades(before + [d]) <= trades
    requires d.accounted && Seen(mid.fills, d.fill.key)
    ensures Seen(db.fills, d.fill.key) || (d.fill in mid.fills && Trade(d.fill, d.status) in Trades(before))
  {
    TradesPush(before, d);
    var i :| 0 <= i < |mid.fills| && mid.fills[i].key == d.fill.key;
    var g := mid.fills[i];
    if g in db.fills {
      var j :| 0 <= j < |db.fills| && db.fills[j] == g;
      assert Seen(db.fills, d.fill.key);
    } else {
      var t :| t in Trades(before) && t.fill == g;
      assert Trade(d.fill, d.status) in trades && t in trades;
    }
  }

  /** A fresh trade of a steady order is booked exactly when the order keeps it. */
  lemma SteadyBooks(db: Db, mid: Db, before: seq<Delivery>, d: Delivery, trades: set<Trade>, order: string)
    requires Steady(db, trades, order) && Sound(mid) && Grown(db, mid, Trades(before), order)
    requires mid.orders.Keys == db.orders.Keys && NewFills(db, mid, order) <= Kept(db, trades, order)
    requires d.fill.order == order && d.accounted && !d.status.Unknown? && !Seen(mid.fills, d.fill.key)
    requires Trade(d.fill, d.status) in trades
    ensures Books(mid, d) <==> d.fill in Kept(db, trades, order)
  {
    var f, q := d.fill, BasketOf(db.fills, order).qty;
    var rises, drops, part := Rises(db, trades, order), Drops(db, trades, order), NewFills(db, mid, order);
    NewKeyIsNewFill(db, mid, f);
    assert order in db.orders ==> f in Fresh(db, trades, order);
    SumBetween(part, rises, drops);
    if f in drops {
      SumAdd(part, f);
      SumBetween(part + {f}, rises, drops);
    }
    assert SoundAt(mid.fills, order);
  }

  ghost predicate KeepsExactly(db: Db, mid: Db, done: set<Trade>, trades: set<Trade>, order: string) {
    NewFills(db, mid, order) == Delivered(done, Kept(db, trades, order))
  }

  lemma KeepsStep(db: Db, mid: Db, before: seq<Delivery>, d: Delivery, trades: set<Trade>, order: string)
    requires Sound(db) && Sound(mid) && Grown(db, mid, Trades(before), order) && mid.orders.Keys == db.orders.Keys
    requires Consistent(trades) && Trades(before + [d]) <= trades && Steady(db, trades, order)
    requires KeepsExactly(db, mid, Trades(before), trades, order)
    ensures KeepsExactly(db, ApplyFill(mid, d).0, Trades(before + [d]), trades, order)
  {
    var db', kept := ApplyFill(mid, d).0, Kept(db, trades, order);
    BooksExactly(mid, d);
    DeliveredPush(before, d, kept);
    TradesPush(before, d);
    if d.accounted {
      assert Trade(d.fill, d.status) in trades;
      if Seen(mid.fills, d.fill.key) {
        SeenIsOldOrSame(db, mid, before, d, trades, order);
        OldKeyIsNotKept(db, trades, order, d.fill);
      } else if d.fill.order == order {
        SteadyBooks(db, mid, before, d, trades, order);
      }
      if Books(mid, d) {
        GrownPush(db, mid, db', before, d, order);
      }
    }
  }

  lemma OldKeyIsNotKept(db: Db, trades: set<Trade>, order: string, f: VenueFill)
    ensures f in Kept(db, trades, order) ==> !Seen(db.fills, f.key) && f.order == order && order in db.orders
  {
  }

  lemma {:induction false} RunKeepsExactly(db: Db, ds: seq<Delivery>, trades: set<Trade>, order: string)
    requires Sound(db) && Consistent(trades) && Trades(ds) <= trades && Steady(db, trades, order)
    ensures KeepsExactly(db, Deliver(db, ds), Trades(ds), trades, order)
  {
    if ds == [] {
      assert NewFills(db, db, order) == {};
    } else {
      var before, d := ds[..|ds| - 1], ds[|ds| - 1];
      assert ds == before + [d];
      TradesPush(before, d);
      RunKeepsExactly(db, before, trades, order);
      RunKeepsSound(db, before);
      RunGrows(db, before, order);
      KeepsStep(db, Deliver(db, before), before, d, trades, order);
    }
  }
}
