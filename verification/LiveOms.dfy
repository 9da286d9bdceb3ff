/**
 The live-order store: a monotone status machine, replay-safe booking of venue fills
 with the VWAP of an order's fills, and claims on placement attempts.
 */
module LiveOms {
  import opened Wrappers
  import opened Decimals

  datatype Status = PendingNew | Open | PartiallyFilled | Filled | Canceled | Rejected | Expired | Unknown(text: string)

  /** Transitions only rise in rank; rank 3 is terminal. A stored text that is no status ranks lowest. */
  function Rank(s: Status): int {
    match s
    case Unknown(_) => 0
    case PendingNew => 0
    case Open => 1
    case PartiallyFilled => 2
    case _ => 3
  }

  datatype TradeKey = TradeKey(epoch: int, symbol: string, id: int)

  datatype VenueFill = VenueFill(order: string, key: TradeKey, qty: real, price: real, at: int)

  datatype LiveOrder = LiveOrder(status: Status, price: Option<real>, filledAt: Option<int>)

  datatype Intent = Intent(claimed: Option<int>, revoked: Option<int>)

  datatype Db = Db(orders: map<string, LiveOrder>, fills: seq<VenueFill>)

  datatype Answer = Done(status: Status) | Booked | Replay | UnknownStatus | NotFound | NoQuantity | NotAccounted

  // ----- Status -----

  function Advanced(current: Status, status: Status): Status {
    if Rank(status) <= Rank(current) then current else status
  }

  function ApplyStatus(orders: map<string, LiveOrder>, id: string, status: Status): (map<string, LiveOrder>, Answer) {
    if status.Unknown? then (orders, UnknownStatus)
    else if id !in orders then (orders, NotFound)
    else
      var o := orders[id];
      (orders[id := o.(status := Advanced(o.status, status))], Done(Advanced(o.status, status)))
  }

  // ----- Fills -----

  predicate Seen(fills: seq<VenueFill>, key: TradeKey) {
    exists i :: 0 <= i < |fills| && fills[i].key == key
  }

  /** Quantity and notional of an order's booked fills. */
  datatype Basket = Basket(qty: real, notional: real)

  function Notional(f: VenueFill): real {
    f.qty * f.price
  }

  function Add(b: Basket, f: VenueFill, order: string): Basket {
    if f.order == order then Basket(b.qty + f.qty, b.notional + Notional(f)) else b
  }

  function BasketOf(fills: seq<VenueFill>, order: string): Basket {
    if fills == [] then Basket(0.0, 0.0)
    else Add(BasketOf(fills[..|fills| - 1], order), fills[|fills| - 1], order)
  }

  /** The rounded average price; none over a non-positive quantity. */
  function Vwap(b: Basket): Option<real> {
    if b.qty <= 0.0 then None else Some(Round8(b.notional / b.qty))
  }

  datatype Delivery = Delivery(fill: VenueFill, status: Status, accounted: bool)

  /** One delivery as one transaction. */
  function ApplyFill(db: Db, d: Delivery): (Db, Answer) {
    var f := d.fill;
    if d.status.Unknown? then (db, UnknownStatus)
    else if Seen(db.fills, f.key) then (db, Replay)
    else if f.order !in db.orders then (db, NotFound)
    else
      var price := Vwap(BasketOf(db.fills + [f], f.order));
      if price.None? then (db, NoQuantity)
      else if !d.accounted then (db, NotAccounted)
      else
        var o := db.orders[f.order];
        (Db(db.orders[f.order := LiveOrder(Advanced(o.status, d.status), price, Some(f.at))], db.fills + [f]), Booked)
  }

  class LiveStore {
    var orders: map<string, LiveOrder>
    var fills: seq<VenueFill>
    var intents: map<string, Intent>

    function Snapshot(): Db
      reads this
    {
      Db(orders, fills)
    }

    method RecordOrderStatus(id: string, status: Status) returns (r: Answer)
      modifies this`orders
      ensures (orders, r) == ApplyStatus(old(orders), id, status)
    {
      if status.Unknown? {
        return UnknownStatus;
      }
      if id !in orders {
        return NotFound;
      }
      var current := orders[id];
      if Rank(status) <= Rank(current.status) {
        assert orders[id := current] == orders;
        return Done(current.status);
      }
      orders := orders[id := current.(status := status)];
      r := Done(status);
    }

    /** SUM(qty * price) / SUM(qty) over the order's fills, rounded; None when there is no quantity. */
    method FillVwap(rows: seq<VenueFill>, order: string) returns (price: Option<real>)
      ensures price == Vwap(BasketOf(rows, order))
    {
      var sumQty, sumNotional, n := 0.0, 0.0, 0;
      while n < |rows|
        invariant 0 <= n <= |rows|
        invariant BasketOf(rows[..n], order) == Basket(sumQty, sumNotional)
      {
        assert rows[..n + 1][..n] == rows[..n];
        if rows[n].order == order {
          sumQty := sumQty + rows[n].qty;
          sumNotional := sumNotional + Notional(rows[n]);
        }
        n := n + 1;
      }
      assert rows[..n] == rows;
      price := if sumQty <= 0.0 then None else Some(Round8(sumNotional / sumQty));
    }

    method RecordVenueFill(d: Delivery) returns (r: Answer)
      modifies this`orders, this`fills
      ensures (Snapshot(), r) == ApplyFill(old(Snapshot()), d)
    {
      if d.status.Unknown? {
        return UnknownStatus;
      }
      if Seen(fills, d.fill.key) {
        return Replay;
      }
      if d.fill.order !in orders {
        return NotFound;
      }
      var rows := fills + [d.fill];
      var price := FillVwap(rows, d.fill.order);
      if price.None? {
        return NoQuantity;
      }
      if !d.accounted {
        return NotAccounted;
      }
      var current := orders[d.fill.order].status;
      var status := if Rank(d.status) <= Rank(current) then current else d.status;
      orders := orders[d.fill.order := LiveOrder(status, price, Some(d.fill.at))];
      fills := rows;
      r := Booked;
    }

    /** True when this call claimed the attempt; None for an unknown attempt. */
    method RecordIntentClaim(id: string, at: int) returns (won: Option<bool>)
      modifies this`intents
      ensures (intents, won) == Claim(old(intents), id, at)
    {
      if id !in intents {
        return None;
      }
      if intents[id].claimed.None? && intents[id].revoked.None? {
        intents := intents[id := intents[id].(claimed := Some(at))];
        return Some(true);
      }
      won := Some(false);
    }

    method RecordIntentClaimRevoked(id: string, at: int) returns (known: bool)
      modifies this`intents
      ensures (intents, known) == Revoke(old(intents), id, at)
    {
      if id !in intents {
        return false;
      }
      if intents[id].revoked.None? {
        intents := intents[id := intents[id].(revoked := Some(at))];
      }
      known := true;
    }
  }

  function Claim(intents: map<string, Intent>, id: string, at: int): (map<string, Intent>, Option<bool>) {
    if id !in intents then (intents, None)
    else if intents[id].claimed.None? && intents[id].revoked.None?
    then (intents[id := intents[id].(claimed := Some(at))], Some(true))
    else (intents, Some(false))
  }

  function Revoke(intents: map<string, Intent>, id: string, at: int): (map<string, Intent>, bool) {
    if id !in intents then (intents, false)
    else if intents[id].revoked.None? then (intents[id := intents[id].(revoked := Some(at))], true)
    else (intents, true)
  }
}
