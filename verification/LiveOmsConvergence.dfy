/**
 Exactly when replays of venue fills converge on an order: for every quantity, in every
 order of delivery and with any repeats.
 */
module LiveOmsConvergence {
  import opened LiveOms
  import opened LiveOmsRuns
  import opened LiveOmsDeliveries

  // ----- Status and price -----

  /** A trade that the order keeps was delivered with this status. */
  ghost predicate Reports(done: set<Trade>, kept: set<VenueFill>, status: Status) {
    exists t :: t in done && t.fill in kept && t.status == status
  }

  /** Where the reported statuses take an order. */
  function Reached(was: Status, filled: bool, partially: bool): Status {
    if filled then Advanced(was, Filled) else if partially then Advanced(was, PartiallyFilled) else was
  }

  lemma ReachesOn(was: Status, filled: bool, partially: bool, status: Status)
    requires status.PartiallyFilled? || status.Filled?
    ensures Advanced(Reached(was, filled, partially), status)
         == Reached(was, filled || status.Filled?, partially || status.PartiallyFilled?)
  {
  }

  /** Status and price as the kept trades determine them. */
  ghost predicate OrderIs(db: Db, mid: Db, done: set<Trade>, kept: set<VenueFill>, order: string) {
    order in db.orders && order in mid.orders ==>
      var was, now := db.orders[order], mid.orders[order];
      && now.status == Reached(was.status, Reports(done, kept, Filled), Reports(done, kept, PartiallyFilled))
      && now.price == (if NewFills(db, mid, order) != {} then Vwap(BasketOf(mid.fills, order)) else was.price)
  }

  lemma ReportsPush(before: seq<Delivery>, d: Delivery, kept: set<VenueFill>, status: Status)
    ensures Reports(Trades(before + [d]), kept, status)
            <==> Reports(Trades(before), kept, status) || (d.accounted && d.fill in kept && d.status == status)
  {
    TradesPush(before, d);
    if d.accounted {
      assert Trade(d.fill, d.status) in Trades(before + [d]);
    }
  }

  /** What a booked delivery does to an order. */
  lemma BookedOrder(mid: Db, d: Delivery, order: string)
    requires Books(mid, d) && order in mid.orders
    ensures var db := ApplyFill(mid, d).0;
      && order in db.orders && db.fills == mid.fills + [d.fill]
      && (d.fill.order == order ==>
            && db.orders[order].status == Advanced(mid.orders[order].status, d.status)
            && db.orders[order].price == Vwap(BasketOf(db.fills, order)))
      && (d.fill.order != order ==>
            db.orders[order] == mid.orders[order] && BasketOf(db.fills, order) == BasketOf(mid.fills, order))
  {
    BooksExactly(mid, d);
    BasketPush(mid.fills, d.fill, order);
    BasketPush(mid.fills, d.fill, d.fill.order);
  }

  lemma OrderBooked(db: Db, mid: Db, before: seq<Delivery>, d: Delivery, kept: set<VenueFill>, order: string)
    requires Grown(db, mid, Trades(before), order) && Books(mid, d) && order in mid.orders
    requires d.status.PartiallyFilled? || d.status.Filled?
    requires d.fill in kept <==> d.fill.order == order
    requires OrderIs(db, mid, Trades(before), kept, order)
    ensures OrderIs(db, ApplyFill(mid, d).0, Trades(before + [d]), kept, order)
  {
    BooksExactly(mid, d);
    BookedOrder(mid, d, order);
    GrownPush(db, mid, ApplyFill(mid, d).0, before, d, order);
    ReportsPush(before, d, kept, Filled);
    ReportsPush(before, d, kept, PartiallyFilled);
    if order in db.orders {
      ReachesOn(db.orders[order].status, Reports(Trades(before), kept, Filled),
                Reports(Trades(before), kept, PartiallyFilled), d.status);
    }
  }

  lemma OrderStep(db: Db, mid: Db, before: seq<Delivery>, d: Delivery, trades: set<Trade>, order: string)
    requires Sound(db) && Sound(mid) && Grown(db, mid, Trades(before), order) && mid.orders.Keys == db.orders.Keys
    requires Consistent(trades) && Trades(before + [d]) <= trades && Steady(db, trades, order)
    requires KeepsExactly(db, mid, Trades(before), trades, order)
    requires OrderIs(db, mid, Trades(before), Kept(db, trades, order), order)
    ensures OrderIs(db, ApplyFill(mid, d).0, Trades(before + [d]), Kept(db, trades, order), order)
  {
    var kept := Kept(db, trades, order);
    TradesPush(before, d);
    OldKeyIsNotKept(db, trades, order, d.fill);
    if d.accounted {
      assert Trade(d.fill, d.status) in trades;
      if Seen(mid.fills, d.fill.key) {
        SeenIsOldOrSame(db, mid, before, d, trades, order);
      } else if d.fill.order == order {
        SteadyBooks(db, mid, before, d, trades, order);
      }
    }
    BooksExactly(mid, d);
    if Books(mid, d) && order in mid.orders {
      OrderBooked(db, mid, before, d, kept, order);
    } else {
      ReportsPush(before, d, kept, Filled);
      ReportsPush(before, d, kept, PartiallyFilled);
    }
  }

  lemma {:induction false} OrdersFollowTrades(db: Db, ds: seq<Delivery>, trades: set<Trade>, order: string)
    requires Sound(db) && Consistent(trades) && Trades(ds) <= trades && Steady(db, trades, order)
    ensures OrderIs(db, Deliver(db, ds), Trades(ds), Kept(db, trades, order), order)
  {
    if ds == [] {
      assert NewFills(db, db, order) == {};
    } else {
      var before, d := ds[..|ds| - 1], ds[|ds| - 1];
      assert ds == before + [d];
      TradesPush(before, d);
      OrdersFollowTrades(db, before, trades, order);
      RunKeepsSound(db, before);
      RunGrows(db, before, order);
      RunKeepsExactly(db, before, trades, order);
      OrderStep(db, Deliver(db, before), before, d, trades, order);
    }
  }

  // ----- Baskets ignore the order of fills -----

  function OfOrder(fills: seq<VenueFill>, order: string): (r: seq<VenueFill>)
    ensures forall f :: f in r <==> f in fills && f.order == order
  {
    if fills == [] then []
    else
      var rest, last := OfOrder(fills[..|fills| - 1], order), fills[|fills| - 1];
      if last.order == order then rest + [last] else rest
  }

  ghost predicate NoRepeats(fills: seq<VenueFill>) {
    forall i, j :: 0 <= i < j < |fills| ==> fills[i] != fills[j]
  }

  lemma NoRepeatsPush(fills: seq<VenueFill>, f: VenueFill)
    requires NoRepeats(fills) && f !in fills
    ensures NoRepeats(fills + [f])
  {
  }

  lemma {:induction false} OnlyItsOwnFills(fills: seq<VenueFill>, order: string)
    requires NoRepeatedKeys(fills)
    ensures BasketOf(OfOrder(fills, order), order) == BasketOf(fills, order) && NoRepeats(OfOrder(fills, order))
  {
    if fills != [] {
      var before, last := fills[..|fills| - 1], fills[|fills| - 1];
      OnlyItsOwnFills(before, order);
      BasketPush(OfOrder(before, order), last, order);
      assert last !in before;
      if last.order == order {
        NoRepeatsPush(OfOrder(before, order), last);
      }
    }
  }

  lemma {:induction false} FillMovesLast(a: seq<VenueFill>, x: VenueFill, b: seq<VenueFill>, order: string)
    ensures BasketOf(a + [x] + b, order) == Add(BasketOf(a + b, order), x, order)
    decreases |b|
  {
    if b == [] {
      assert a + [x] + b == a + [x] && a + b == a;
      BasketPush(a, x, order);
    } else {
      var before, last := b[..|b| - 1], b[|b| - 1];
      FillMovesLast(a, x, before, order);
      assert a + [x] + b == a + [x] + before + [last] && a + b == a + before + [last];
      BasketPush(a + [x] + before, last, order);
      BasketPush(a + before, last, order);
      AddsCommute(BasketOf(a + before, order), x, last, order);
    }
  }

  lemma AddsCommute(b: Basket, x: VenueFill, y: VenueFill, order: string)
    ensures Add(Add(b, x, order), y, order) == Add(Add(b, y, order), x, order)
  {
  }

  lemma {:induction false} SameFillsSameBasket(a: seq<VenueFill>, b: seq<VenueFill>, order: string)
    requires NoRepeats(a) && NoRepeats(b) && forall f :: f in a <==> f in b
    ensures BasketOf(a, order) == BasketOf(b, order)
    decreases |a|
  {
    assert b == [] || b[0] in b;
    if a != [] {
      var before, x := a[..|a| - 1], a[|a| - 1];
      assert a == before + [x];
      assert x in b;
      var i :| 0 <= i < |b| && b[i] == x;
      var left, right := b[..i], b[i + 1..];
      assert b == left + [x] + right;
      RestHasTheSame(before, x, left, right);
      SameFillsSameBasket(before, left + right, order);
      FillMovesLast(left, x, right, order);
      BasketPush(before, x, order);
    }
  }

  lemma RestHasTheSame(before: seq<VenueFill>, x: VenueFill, left: seq<VenueFill>, right: seq<VenueFill>)
    requires NoRepeats(before + [x]) && NoRepeats(left + [x] + right)
    requires forall f :: f in before + [x] <==> f in left + [x] + right
    ensures NoRepeats(before) && NoRepeats(left + right) && forall f :: f in before <==> f in left + right
  {
    var a, b := before + [x], left + [x] + right;
    assert a[|before|] == x && b[|left|] == x;
    assert forall i :: 0 <= i < |before| ==> a[i] == before[i];
    assert forall i :: 0 <= i < |left| ==> b[i] == left[i];
    assert forall i :: 0 <= i < |right| ==> b[|left| + 1 + i] == right[i];
    forall f
      ensures f in before <==> f in left + right
    {
      assert f in a <==> f in before || f == x;
      assert f in b <==> f in left || f == x || f in right;
      assert x !in before;
      assert x !in left && x !in right;
    }
  }

  // ----- Convergence -----

  /** The same fills, status and price of one order; filled_at is the last delivery's and is not compared. */
  ghost predicate SameAt(a: Db, b: Db, order: string) {
    && (forall f :: f in a.fills && f.order == order ==> f in b.fills)
    && (forall f :: f in b.fills && f.order == order ==> f in a.fills)
    && (order in a.orders <==> order in b.orders)
    && (order in a.orders ==>
          a.orders[order].status == b.orders[order].status && a.orders[order].price == b.orders[order].price)
  }

  lemma SameNewFills(db: Db, a: Db, b: Db, order: string)
    requires NewFills(db, a, order) == NewFills(db, b, order)
    requires (forall f :: f in db.fills ==> f in a.fills) && (forall f :: f in db.fills ==> f in b.fills)
    ensures forall f: VenueFill :: f.order == order ==> (f in a.fills <==> f in b.fills)
  {
    forall f: VenueFill | f.order == order
      ensures f in a.fills <==> f in b.fills
    {
      assert f in NewFills(db, a, order) <==> f in NewFills(db, b, order);
    }
  }

  lemma SameBaskets(a: Db, b: Db, order: string)
    requires NoRepeatedKeys(a.fills) && NoRepeatedKeys(b.fills)
    requires forall f: VenueFill :: f.order == order ==> (f in a.fills <==> f in b.fills)
    ensures BasketOf(a.fills, order) == BasketOf(b.fills, order)
  {
    OnlyItsOwnFills(a.fills, order);
    OnlyItsOwnFills(b.fills, order);
    SameFillsSameBasket(OfOrder(a.fills, order), OfOrder(b.fills, order), order);
  }

  /**
   On a steady order, two sequences of deliveries with the same trades, in any order and
   with any repeats, leave the same fills, status and rounded price.
   */
  lemma ReplaysConverge(db: Db, ds: seq<Delivery>, es: seq<Delivery>, order: string)
    requires Sound(db) && Consistent(Trades(ds)) && Trades(ds) == Trades(es) && Steady(db, Trades(ds), order)
    ensures SameAt(Deliver(db, ds), Deliver(db, es), order)
  {
    var a, b, trades := Deliver(db, ds), Deliver(db, es), Trades(ds);
    RunKeepsSound(db, ds);
    RunKeepsSound(db, es);
    RunGrows(db, ds, order);
    RunGrows(db, es, order);
    RunKeepsExactly(db, ds, trades, order);
    RunKeepsExactly(db, es, trades, order);
    SameNewFills(db, a, b, order);
    SameBaskets(a, b, order);
    OrdersFollowTrades(db, ds, trades, order);
    OrdersFollowTrades(db, es, trades, order);
  }

  // ----- Divergence -----

  lemma {:induction false} DeliverJoins(db: Db, a: seq<Delivery>, b: seq<Delivery>)
    ensures Deliver(db, a + b) == Deliver(Deliver(db, a), b)
  {
    if b == [] {
      assert a + b == a;
    } else {
      DeliverJoins(db, a, b[..|b| - 1]);
      assert (a + b)[..|a + b| - 1] == a + b[..|b| - 1];
    }
  }

  /** The trades delivered once each, in some order. */
  ghost function Listing(trades: set<Trade>): seq<Delivery> {
    if trades == {} then []
    else
      var t :| t in trades;
      Listing(trades - {t}) + [Delivery(t.fill, t.status, true)]
  }

  lemma {:induction false} ListingHasThem(trades: set<Trade>)
    ensures Trades(Listing(trades)) == trades
  {
    if trades != {} {
      var t :| t in trades && Listing(trades) == Listing(trades - {t}) + [Delivery(t.fill, t.status, true)];
      ListingHasThem(trades - {t});
      TradesPush(Listing(trades - {t}), Delivery(t.fill, t.status, true));
      assert trades - {t} + {t} == trades;
    }
  }

  lemma TradesJoin(a: seq<Delivery>, b: seq<Delivery>)
    ensures Trades(a + b) == Trades(a) + Trades(b)
  {
    assert forall x :: x in a + b <==> x in a || x in b;
  }

  /** The trades behind a set of fills. */
  ghost function Behind(trades: set<Trade>, fills: set<VenueFill>): set<Trade> {
    set t | t in trades && t.fill in fills
  }

  /** Delivered first and alone, the drops of an unsteady order cannot all be booked. */
  lemma SomeDropIsRefused(db: Db, trades: set<Trade>, order: string) returns (t: Trade)
    requires Sound(db) && Consistent(trades) && !Steady(db, trades, order)
    ensures t in trades && t.fill in Drops(db, trades, order)
    ensures t.fill !in Deliver(db, Listing(Behind(trades, Drops(db, trades, order)))).fills
  {
    var drops := Drops(db, trades, order);
    var behind := Behind(trades, drops);
    var mid := Deliver(db, Listing(behind));
    ListingHasThem(behind);
    RunKeepsSound(db, Listing(behind));
    RunGrows(db, Listing(behind), order);
    assert SoundAt(mid.fills, order);
    if forall f :: f in drops ==> f in mid.fills {
      AllDropsBooked(db, mid, trades, order);
      assert false;
    }
    var f :| f in drops && f !in mid.fills;
    t :| t in trades && t.fill == f;
  }

  lemma AllDropsBooked(db: Db, mid: Db, trades: set<Trade>, order: string)
    requires !Steady(db, trades, order) && Grown(db, mid, Behind(trades, Drops(db, trades, order)), order)
    requires forall f :: f in Drops(db, trades, order) ==> f in mid.fills
    ensures !SoundAt(mid.fills, order)
  {
    var drops := Drops(db, trades, order);
    forall f
      ensures f in NewFills(db, mid, order) <==> f in drops
    {
      OldKeyIsNotKept(db, trades, order, f);
    }
    assert NewFills(db, mid, order) == drops;
    var f :| f in drops;
    var i :| 0 <= i < |mid.fills| && mid.fills[i] == f;
    assert HasFills(mid.fills, order);
  }

  /** Without its drops an order is steady, and books exactly its rises. */
  lemma OthersLeaveTheMost(db: Db, trades: set<Trade>, order: string)
    requires Sound(db) && Consistent(trades)
    ensures var others := trades - Behind(trades, Drops(db, trades, order));
      BasketOf(Deliver(db, Listing(others)).fills, order).qty == Most(db, trades, order)
  {
    var others := trades - Behind(trades, Drops(db, trades, order));
    var mid := Deliver(db, Listing(others));
    ListingHasThem(others);
    assert Rises(db, others, order) == Rises(db, trades, order);
    assert Drops(db, others, order) == {};
    RunKeepsExactly(db, Listing(others), others, order);
    RunGrows(db, Listing(others), order);
    assert NewFills(db, mid, order) == Rises(db, trades, order);
  }

  /** Delivered right after all others, a drop is booked. */
  lemma DropIsBookedLast(db: Db, trades: set<Trade>, order: string, t: Trade)
    requires Sound(db) && Consistent(trades) && t in trades && t.fill in Drops(db, trades, order)
    ensures var others := trades - Behind(trades, Drops(db, trades, order));
      t.fill in Deliver(db, Listing(others) + [Delivery(t.fill, t.status, true)]).fills
  {
    var others := trades - Behind(trades, Drops(db, trades, order));
    var mid, d := Deliver(db, Listing(others)), Delivery(t.fill, t.status, true);
    OldKeyIsNotKept(db, trades, order, t.fill);
    ListingHasThem(others);
    OthersLeaveTheMost(db, trades, order);
    RunKeepsSound(db, Listing(others));
    RunGrows(db, Listing(others), order);
    KeyIsUnseen(db, mid, others, trades, t, order);
    assert Books(mid, d);
    BooksExactly(mid, d);
    assert (Listing(others) + [d])[..|Listing(others)|] == Listing(others);
  }

  lemma KeyIsUnseen(db: Db, mid: Db, others: set<Trade>, trades: set<Trade>, t: Trade, order: string)
    requires Consistent(trades) && others <= trades && t in trades && t !in others
    requires Grown(db, mid, others, order) && !Seen(db.fills, t.fill.key)
    ensures !Seen(mid.fills, t.fill.key)
  {
  }

  /** What was booked stays booked. */
  lemma FillsStay(db: Db, first: seq<Delivery>, later: seq<Delivery>, f: VenueFill)
    requires f in Deliver(db, first).fills
    ensures f in Deliver(db, first + later).fills
  {
    DeliverJoins(db, first, later);
    RunGrows(Deliver(db, first), later, f.order);
  }

  /** A trade refused at its only delivery is never booked. */
  lemma RefusedStaysOut(db: Db, first: seq<Delivery>, later: seq<Delivery>, f: VenueFill)
    requires f !in Deliver(db, first).fills && !Names(Trades(later), f)
    ensures f !in Deliver(db, first + later).fills
  {
    DeliverJoins(db, first, later);
    RunGrows(Deliver(db, first), later, f.order);
  }

  /** An unsteady order has two deliveries of the same trades that book different fills. */
  lemma UnsteadyDiverges(db: Db, trades: set<Trade>, order: string) returns (ds: seq<Delivery>, es: seq<Delivery>)
    requires Sound(db) && Consistent(trades) && !Steady(db, trades, order)
    ensures Trades(ds) == trades && Trades(es) == trades && !SameAt(Deliver(db, ds), Deliver(db, es), order)
  {
    var behind := Behind(trades, Drops(db, trades, order));
    var others := trades - behind;
    var t := SomeDropIsRefused(db, trades, order);
    var d, rest := Delivery(t.fill, t.status, true), behind - {t};
    ds := Listing(others) + [d] + Listing(rest);
    es := Listing(behind) + Listing(others);
    PartsAreAll(others, d, rest, trades);
    PartsAreBoth(behind, others, trades);
    DropIsBookedLast(db, trades, order, t);
    FillsStay(db, Listing(others) + [d], Listing(rest), t.fill);
    ListingHasThem(others);
    assert !Names(others, t.fill);
    RefusedStaysOut(db, Listing(behind), Listing(others), t.fill);
    OldKeyIsNotKept(db, trades, order, t.fill);
  }

  lemma PartsAreAll(others: set<Trade>, d: Delivery, rest: set<Trade>, trades: set<Trade>)
    requires d.accounted && trades == others + {Trade(d.fill, d.status)} + rest
    ensures Trades(Listing(others) + [d] + Listing(rest)) == trades
  {
    ListingHasThem(others);
    ListingHasThem(rest);
    TradesPush(Listing(others), d);
    TradesJoin(Listing(others) + [d], Listing(rest));
  }

  lemma PartsAreBoth(a: set<Trade>, b: set<Trade>, trades: set<Trade>)
    requires trades == a + b
    ensures Trades(Listing(a) + Listing(b)) == trades
  {
    ListingHasThem(a);
    ListingHasThem(b);
    TradesJoin(Listing(a), Listing(b));
  }

  /**
   Exactly when all deliveries of a set of trades converge on an order, whatever the
   quantities: no trade without a positive quantity can ever be booked, or the stored
   quantity carries all those that can at once.
   */
  lemma ConvergesExactly(db: Db, trades: set<Trade>, order: string)
    requires Sound(db) && Consistent(trades)
    ensures (forall ds, es :: Trades(ds) == trades && Trades(es) == trades ==>
               SameAt(Deliver(db, ds), Deliver(db, es), order))
            <==> Steady(db, trades, order)
  {
    if Steady(db, trades, order) {
      forall ds, es | Trades(ds) == trades && Trades(es) == trades
        ensures SameAt(Deliver(db, ds), Deliver(db, es), order)
      {
        ReplaysConverge(db, ds, es, order);
      }
    } else {
      var ds, es := UnsteadyDiverges(db, trades, order);
    }
  }

  /** On an order without fills, an empty trade is booked after a trade with quantity, and refused before it. */
  lemma EmptyTradeDependsOnOrder(db: Db, full: Delivery, empty: Delivery)
    requires db.fills == [] && full.fill.order == empty.fill.order && full.fill.order in db.orders
    requires full.fill.key != empty.fill.key
    requires full.accounted && empty.accounted && !full.status.Unknown? && !empty.status.Unknown?
    requires full.fill.qty > 0.0 && empty.fill.qty == 0.0
    ensures Trades([full, empty]) == Trades([empty, full])
    ensures Deliver(db, [full, empty]).fills == [full.fill, empty.fill]
    ensures Deliver(db, [empty, full]).fills == [full.fill]
  {
    DeliverTwo(db, full, empty);
    DeliverTwo(db, empty, full);
    assert forall d :: d in [full, empty] <==> d in [empty, full];
    FirstIsBooked(db, full);
    BooksExactly(db, empty);
    FillAfterOne(ApplyFill(db, full).0, full.fill, empty);
  }

  lemma FirstIsBooked(db: Db, d: Delivery)
    requires db.fills == [] && d.fill.order in db.orders && d.accounted && !d.status.Unknown? && d.fill.qty > 0.0
    ensures ApplyFill(db, d).0.fills == [d.fill] && ApplyFill(db, d).0.orders.Keys == db.orders.Keys
  {
    assert BasketOf([], d.fill.order).qty == 0.0;
    BooksExactly(db, d);
    assert [] + [d.fill] == [d.fill];
  }

  lemma FillAfterOne(db: Db, first: VenueFill, d: Delivery)
    requires db.fills == [first] && first.order == d.fill.order && d.fill.order in db.orders && first.key != d.fill.key
    requires d.accounted && !d.status.Unknown? && first.qty > 0.0 && d.fill.qty == 0.0
    ensures ApplyFill(db, d).0.fills == [first, d.fill]
  {
    PricedExactly([], first);
    assert [] + [first] == [first] && [first] + [d.fill] == [first, d.fill];
    BooksExactly(db, d);
  }

  lemma DeliverTwo(db: Db, d: Delivery, e: Delivery)
    ensures Deliver(db, [d, e]) == ApplyFill(ApplyFill(db, d).0, e).0
  {
    assert [d, e][..1] == [d] && [d][..0] == [];
    assert Deliver(db, [d]) == ApplyFill(db, d).0;
  }

  /** For sizes: an empty trade is harmless when the order already holds something, or never will. */
  lemma SteadyForSizes(db: Db, trades: set<Trade>, order: string)
    requires Sound(db) && forall f :: f in Fresh(db, trades, order) ==> f.qty >= 0.0
    ensures Steady(db, trades, order)
            <==> || (forall f :: f in Fresh(db, trades, order) ==> f.qty > 0.0)
                 || BasketOf(db.fills, order).qty > 0.0
                 || (forall f :: f in Fresh(db, trades, order) ==> f.qty == 0.0)
  {
    var drops := Drops(db, trades, order);
    assert SoundAt(db.fills, order);
    MostIsPositive(db, trades, order);
    SumSign(drops);
    assert Sum(drops) == 0.0 && (drops == {} || Most(db, trades, order) > 0.0);
    if Most(db, trades, order) > 0.0 {
      DropsAreEmpties(db, trades, order);
    }
  }

  lemma DropsAreEmpties(db: Db, trades: set<Trade>, order: string)
    requires Most(db, trades, order) > 0.0 && forall f :: f in Fresh(db, trades, order) ==> f.qty >= 0.0
    ensures Drops(db, trades, order) == {} <==> forall f :: f in Fresh(db, trades, order) ==> f.qty > 0.0
  {
    forall f | f in Fresh(db, trades, order)
      ensures f in Drops(db, trades, order) <==> f.qty == 0.0
    {
    }
  }

  lemma MostIsPositive(db: Db, trades: set<Trade>, order: string)
    requires SoundAt(db.fills, order)
    ensures Most(db, trades, order) > 0.0
            <==> BasketOf(db.fills, order).qty > 0.0 || exists f :: f in Fresh(db, trades, order) && f.qty > 0.0
  {
    var rises := Rises(db, trades, order);
    if f :| f in Fresh(db, trades, order) && f.qty > 0.0 {
      assert f in rises;
      SumSign(rises - {f});
      SumAdd(rises - {f}, f);
      assert rises - {f} + {f} == rises;
    } else {
      assert rises == {};
      SumSign(rises);
    }
  }
}
