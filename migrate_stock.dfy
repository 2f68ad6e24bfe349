/**
 * scripts/migrate-stock.ts: the one-off migration that rebuilds the stock
 * counters. Step 1 resets every product to `availableStock = countInStock`,
 * `reservedStock = 0`; step 2 stamps every undelivered order as reserved for
 * 30 minutes; step 3 walks the reserved, unpaid orders and holds each line's
 * quantity again with a per-item `$inc` (an update of a deleted product
 * matches nothing).
 */
module MigrateStock {
  import opened Base
  import opened StockLedger

  /** Step 1: `$set: { availableStock: "$countInStock", reservedStock: 0 }`. */
  function Reset(p: Product): Product
  {
    p.(availableStock := p.countInStock, reservedStock := 0)
  }

  /** Step 2: every order with `isDelivered == false` becomes reserved, expiring in 30 minutes. */
  function StampOpen(os: Orders, now: int): (r: Orders)
    ensures r.Keys == os.Keys
    ensures forall id :: id in os && !os[id].isDelivered ==>
      && r[id].stockStatus == Reserved
      && r[id].stockReservedAt == Some(now)
      && r[id].stockReservationExpiry == Some(now + RESERVATION_TIMEOUT_MS)
      && r[id].items == os[id].items && r[id].isPaid == os[id].isPaid
    ensures forall id :: id in os && os[id].isDelivered ==> r[id] == os[id]
  {
    map id | id in os :: if !os[id].isDelivered then ReserveStamp(os[id], now) else os[id]
  }

  predicate Pending(o: Order)
  {
    o.stockStatus == Reserved && !o.isPaid
  }

  /** Step 3's query `{ stockStatus: "reserved", isPaid: false }`, in the collection's order `scan`. */
  function PendingOrders(os: Orders, scan: seq<OrderId>): (r: seq<OrderId>)
    ensures forall i :: 0 <= i < |r| ==> r[i] in os && Pending(os[r[i]])
    ensures forall id :: id in scan && id in os && Pending(os[id]) ==> id in r
    ensures forall id :: id in r ==> id in scan
    decreases |scan|
  {
    if scan == [] then []
    else
      var rest := PendingOrders(os, scan[1..]);
      assert forall id :: id in scan && id != scan[0] ==> id in scan[1..];
      if scan[0] in os && Pending(os[scan[0]]) then [scan[0]] + rest else rest
  }

  /** Total quantity of `pid` over the lines of the orders `ids`. */
  function PendingQty(os: Orders, ids: seq<OrderId>, pid: ProductId): nat
    decreases |ids|
  {
    if ids == [] then 0
    else
      var last := ids[|ids| - 1];
      PendingQty(os, ids[..|ids| - 1], pid) + (if last in os then Qty(os[last].items, pid) else 0)
  }

  /** The counters the migration leaves: reset, then every pending quantity held. */
  function Migrated(ps: Products, os: Orders, ids: seq<OrderId>): Products
  {
    map pid | pid in ps :: Hold(Reset(ps[pid]), PendingQty(os, ids, pid))
  }

  /** Re-reserving one more order's lines adds its quantities to the pending totals. */
  lemma RereserveStep(reset: Products, cur: Products, os: Orders, done: seq<OrderId>, id: OrderId)
    requires id in os
    requires cur.Keys == reset.Keys
    requires forall pid :: pid in reset ==> cur[pid] == Hold(reset[pid], PendingQty(os, done, pid))
    ensures ApplyItems(Rereserve, cur, os[id].items).Ok?
    ensures var next := ApplyItems(Rereserve, cur, os[id].items).value;
      && next.Keys == reset.Keys
      && forall pid :: pid in reset ==> next[pid] == Hold(reset[pid], PendingQty(os, done + [id], pid))
  {
    var items := os[id].items;
    ApplyItemsSucceedsIff(Rereserve, cur, items);
    ApplyItemsEffect(Rereserve, cur, items);
    assert (done + [id])[..|done|] == done;
    forall pid | pid in reset
      ensures ApplyItems(Rereserve, cur, items).value[pid] == Hold(reset[pid], PendingQty(os, done + [id], pid))
    {
      assert PendingQty(os, done + [id], pid) == PendingQty(os, done, pid) + Qty(items, pid);
    }
  }

  method MigrateStock(db: Db, scan: seq<OrderId>, now: int)
    requires ScanOf(db.orders, scan)
    modifies db
    ensures db.orders == StampOpen(old(db.orders), now)
    ensures db.products == Migrated(old(db.products), db.orders, PendingOrders(db.orders, scan))
  {
    // 1. reset every product
    var reset := map pid | pid in db.products :: Reset(db.products[pid]);
    db.products := reset;

    // 2. stamp every undelivered order
    var stamped := map id | id in db.orders :: if !db.orders[id].isDelivered then ReserveStamp(db.orders[id], now) else db.orders[id];
    db.orders := stamped;

    // 3. hold the stock of every reserved, unpaid order again
    var pendingOrders := PendingOrders(db.orders, scan);
    var i := 0;
    while i < |pendingOrders|
      invariant 0 <= i <= |pendingOrders|
      invariant db.orders == stamped
      invariant db.products.Keys == reset.Keys
      invariant forall pid :: pid in reset ==> db.products[pid] == Hold(reset[pid], PendingQty(stamped, pendingOrders[..i], pid))
    {
      var order := db.orders[pendingOrders[i]];
      assert pendingOrders[..i + 1] == pendingOrders[..i] + [pendingOrders[i]];
      RereserveStep(reset, db.products, stamped, pendingOrders[..i], pendingOrders[i]);
      var updated := ApplyItemsLoop(Rereserve, db.products, order.items);
      db.products := updated.value;
      i := i + 1;
    }
    assert pendingOrders[..i] == pendingOrders;
    HeldAllIsMigrated(old(db.products), reset, stamped, pendingOrders, db.products);
  }

  /** Counters held on top of the reset, one pending total per product, are the migrated counters. */
  lemma HeldAllIsMigrated(ps: Products, reset: Products, os: Orders, ids: seq<OrderId>, cur: Products)
    requires reset == map pid | pid in ps :: Reset(ps[pid])
    requires cur.Keys == reset.Keys
    requires forall pid :: pid in reset ==> cur[pid] == Hold(reset[pid], PendingQty(os, ids, pid))
    ensures cur == Migrated(ps, os, ids)
  {
  }

  // ---------------------------------------------------------------------------
  // Properties

  /**
   * After the migration every product is balanced; it reserves exactly the
   * pending orders' total quantity, offers the rest of its physical stock,
   * and keeps its physical stock and sales.
   */
  lemma MigratedCounters(ps: Products, os: Orders, ids: seq<OrderId>)
    ensures var m := Migrated(ps, os, ids);
      && m.Keys == ps.Keys
      && Balanced(m)
      && forall pid :: pid in ps ==>
           && m[pid].reservedStock == PendingQty(os, ids, pid)
           && m[pid].availableStock == ps[pid].countInStock - PendingQty(os, ids, pid)
           && m[pid].countInStock == ps[pid].countInStock
           && m[pid].numSales == ps[pid].numSales
  {
  }

  /**
   * The migration checks nothing: it leaves the ledger non-negative exactly
   * when no product's physical stock falls short of its pending quantity.
   */
  lemma MigratedNonNegativeIff(ps: Products, os: Orders, ids: seq<OrderId>)
    requires forall pid :: pid in ps ==> ps[pid].countInStock >= 0
    ensures NonNegative(Migrated(ps, os, ids)) <==>
      forall pid :: pid in ps ==> PendingQty(os, ids, pid) <= ps[pid].countInStock
  {
    MigratedCounters(ps, os, ids);
  }

  /** A product no pending order mentions comes out with nothing reserved. */
  lemma {:induction false} UnmentionedNotReserved(os: Orders, ids: seq<OrderId>, pid: ProductId)
    requires forall id :: id in ids && id in os ==> !Mentions(os[id].items, pid)
    ensures PendingQty(os, ids, pid) == 0
    decreases |ids|
  {
    if ids != [] {
      var last := ids[|ids| - 1];
      assert forall id :: id in ids[..|ids| - 1] ==> id in ids;
      UnmentionedNotReserved(os, ids[..|ids| - 1], pid);
      if last in os {
        UnmentionedQtyZero(os[last].items, pid);
      }
    }
  }

  /**
   * The migration counts exactly the unpaid orders that are undelivered
   * (step 2 stamps them reserved) or delivered but still reserved (step 2
   * leaves them as they are, and step 3's query does not look at delivery);
   * over a scan of the whole collection, each such order once.
   */
  lemma OpenUnpaidOrdersCounted(os: Orders, scan: seq<OrderId>, now: int)
    ensures var stamped := StampOpen(os, now);
      var ids := PendingOrders(stamped, scan);
      && (forall id :: id in ids ==> id in os && !stamped[id].isPaid && stamped[id].stockStatus == Reserved)
      && (forall id :: id in ids <==>
            id in scan && id in os && !os[id].isPaid && (!os[id].isDelivered || os[id].stockStatus == Reserved))
      && (ScanOf(os, scan) ==>
            && Distinct(ids)
            && forall id :: id in ids <==> id in os && !os[id].isPaid && (!os[id].isDelivered || os[id].stockStatus == Reserved))
  {
    var stamped := StampOpen(os, now);
    var ids := PendingOrders(stamped, scan);
    forall id | id in ids ensures id in os && !stamped[id].isPaid && stamped[id].stockStatus == Reserved {
      var k :| 0 <= k < |ids| && ids[k] == id;
    }
    if ScanOf(os, scan) {
      ScanOfFacts(os, scan);
      PendingOrdersDistinct(stamped, scan);
    }
  }

  /** A scan without repeats yields pending orders without repeats. */
  lemma {:induction false} PendingOrdersDistinct(os: Orders, scan: seq<OrderId>)
    requires Distinct(scan)
    ensures Distinct(PendingOrders(os, scan))
    decreases |scan|
  {
    if scan != [] {
      var tail := scan[1..];
      DistinctTail(scan);
      PendingOrdersDistinct(os, tail);
      var rest := PendingOrders(os, tail);
      if scan[0] in os && Pending(os[scan[0]]) {
        DistinctCons(scan[0], rest);
      }
    }
  }
}
