/**
 * lib/actions/stock.actions_old.ts: the earlier, lock-free stock operations.
 * Each runs one database transaction, once: an error (a write conflict
 * included) aborts it and is rethrown. Reserve checks `availableStock`
 * rather than `countInStock - reservedStock`, confirm has no guard on
 * `reservedStock`, and the reaper releases every expired reservation with
 * no batch limit. Release is the same transaction body as in the current
 * file (StockLedger.ReleaseTx).
 */
module StockActionsOld {
  import opened Base
  import opened StockLedger
  import opened TransactionRetry
  import StockActions

  // ---------------------------------------------------------------------------
  // Transaction bodies

  /** The legacy order update writes only the two dates; the status stays as it was. */
  function LegacyStamp(o: Order, now: int): Order
  {
    o.(stockReservedAt := Some(now), stockReservationExpiry := Some(now + RESERVATION_TIMEOUT_MS))
  }

  function LegacyReserveTx(ps: Products, os: Orders, id: OrderId, now: int): Result<Committed, StockError>
  {
    if id !in os then Err(OrderNotFound)
    else if os[id].stockStatus != Reserved then Err(AlreadyProcessed)
    else
      match ApplyItems(ReserveByAvailable, ps, os[id].items)
      case Err(e) => Err(e)
      case Ok(next) =>
        Ok(Committed(next, os[id := LegacyStamp(os[id], now)], ReservedUntil(now + RESERVATION_TIMEOUT_MS)))
  }

  function LegacyConfirmTx(ps: Products, os: Orders, id: OrderId): Result<Committed, StockError>
  {
    if id !in os then Err(OrderNotFound)
    else if os[id].stockStatus == Confirmed then Ok(Committed(ps, os, AlreadyApplied))
    else if os[id].stockStatus == Released then Err(AlreadyReleased)
    else
      match ApplyItems(SellUnguarded, ps, os[id].items)
      case Err(e) => Err(e)
      case Ok(next) => Ok(Committed(next, os[id := os[id].(stockStatus := Confirmed)], Applied))
  }

  /** One attempt and no retry: a write conflict aborts the transaction and is rethrown. */
  function SingleAttempt(tx: Result<Committed, StockError>, conflict: bool): Result<Committed, StockError>
  {
    if conflict then Err(WriteConflict) else tx
  }

  /** The call answered `r` and left the collections as the single attempt `t` says. */
  predicate Settled(t: Result<Committed, StockError>, ps: Products, os: Orders,
                    r: Result<Reply, StockError>, ps': Products, os': Orders)
  {
    && r == (if t.Ok? then Ok(t.value.reply) else Err(t.error))
    && ps' == (if t.Ok? then t.value.products else ps)
    && os' == (if t.Ok? then t.value.orders else os)
  }

  // ---------------------------------------------------------------------------
  // Properties

  /**
   * Legacy reserve succeeds exactly on a reserved order whose products all
   * exist and each have `availableStock` covering all of the order's lines
   * for them; it holds that quantity and writes the two dates, leaving the
   * status untouched.
   */
  lemma LegacyReserveTxSpec(ps: Products, os: Orders, id: OrderId, now: int)
    ensures id !in os ==> LegacyReserveTx(ps, os, id, now) == Err(OrderNotFound)
    ensures id in os && os[id].stockStatus != Reserved ==> LegacyReserveTx(ps, os, id, now) == Err(AlreadyProcessed)
    ensures LegacyReserveTx(ps, os, id, now).Ok? <==>
      id in os && os[id].stockStatus == Reserved && Admissible(ReserveByAvailable, ps, os[id].items)
    ensures LegacyReserveTx(ps, os, id, now).Ok? ==>
      var c := LegacyReserveTx(ps, os, id, now).value;
      && c.products.Keys == ps.Keys
      && (forall pid :: pid in ps ==> c.products[pid] == Hold(ps[pid], Qty(os[id].items, pid)))
      && c.orders.Keys == os.Keys
      && c.orders[id] == os[id].(stockReservedAt := Some(now), stockReservationExpiry := Some(now + RESERVATION_TIMEOUT_MS))
      && c.orders[id].stockStatus == os[id].stockStatus
      && (forall x :: x in os && x != id ==> c.orders[x] == os[x])
      && c.reply == ReservedUntil(now + RESERVATION_TIMEOUT_MS)
  {
    if id in os && os[id].stockStatus == Reserved {
      ApplyItemsSucceedsIff(ReserveByAvailable, ps, os[id].items);
      if LegacyReserveTx(ps, os, id, now).Ok? {
        ApplyItemsEffect(ReserveByAvailable, ps, os[id].items);
      }
    }
  }

  /**
   * On a balanced ledger `availableStock == countInStock - reservedStock`,
   * so the two availability checks agree all along the loop.
   */
  lemma {:induction false} ReserveChecksAgree(ps: Products, items: seq<OrderItem>)
    requires Balanced(ps)
    ensures ApplyItems(ReserveByAvailable, ps, items) == ApplyItems(ReserveByFree, ps, items)
    decreases |items|
  {
    if items != [] {
      var it := items[0];
      if it.product in ps {
        var p := ps[it.product];
        assert Budget(ReserveByAvailable, p) == Budget(ReserveByFree, p);
        if Budget(ReserveByFree, p) >= it.quantity {
          var next := ps[it.product := Hold(p, it.quantity)];
          assert Balanced(next);
          ReserveChecksAgree(next, items[1..]);
        }
      }
    }
  }

  /**
   * On a balanced ledger the legacy reserve holds the same stock and fails
   * the same way as the current one; the orders differ only in that the
   * current one writes the (unchanged) status again.
   */
  lemma LegacyReserveMatchesCurrent(ps: Products, os: Orders, id: OrderId, now: int)
    requires Balanced(ps)
    ensures LegacyReserveTx(ps, os, id, now) == ReserveTx(ps, os, id, now)
  {
    if id in os && os[id].stockStatus == Reserved {
      ReserveChecksAgree(ps, os[id].items);
      assert LegacyStamp(os[id], now) == ReserveStamp(os[id], now);
    }
  }

  /**
   * On a ledger that is out of balance the two checks part: a product with
   * 5 available but 5 in stock and 3 reserved lets the legacy reserve take 4
   * while the current one refuses with 2 free.
   */
  lemma ReserveChecksDiffer(now: int)
    ensures var ps := map["p" := Product("P", 5, 5, 3, 0)];
      var os := map["o" := Order([OrderItem("p", "P", 4)], Reserved, None, None, None, false, false)];
      && LegacyReserveTx(ps, os, "o", now).Ok?
      && ReserveTx(ps, os, "o", now) == Err(NotEnoughStock("P", 2))
  {
    var ps := map["p" := Product("P", 5, 5, 3, 0)];
    var items := [OrderItem("p", "P", 4)];
    assert items[1..] == [];
    assert ApplyItems(ReserveByAvailable, ps, items) == Ok(ps["p" := Hold(ps["p"], 4)]);
    assert ApplyItems(ReserveByFree, ps, items) == Err(NotEnoughStock("P", 2));
  }

  /**
   * Legacy confirm: idempotent on a confirmed order, refuses a released one,
   * and otherwise succeeds exactly when every product exists, selling the
   * order's quantities with no check on `reservedStock`.
   */
  lemma LegacyConfirmTxSpec(ps: Products, os: Orders, id: OrderId)
    ensures id !in os ==> LegacyConfirmTx(ps, os, id) == Err(OrderNotFound)
    ensures id in os && os[id].stockStatus == Confirmed ==> LegacyConfirmTx(ps, os, id) == Ok(Committed(ps, os, AlreadyApplied))
    ensures id in os && os[id].stockStatus == Released ==> LegacyConfirmTx(ps, os, id) == Err(AlreadyReleased)
    ensures id in os && os[id].stockStatus == Reserved ==>
      (LegacyConfirmTx(ps, os, id).Ok? <==> AllKnown(ps, os[id].items))
    ensures id in os && os[id].stockStatus == Reserved && LegacyConfirmTx(ps, os, id).Ok? ==>
      var c := LegacyConfirmTx(ps, os, id).value;
      && c.products.Keys == ps.Keys
      && (forall pid :: pid in ps ==> c.products[pid] == Sell(ps[pid], Qty(os[id].items, pid)))
      && c.orders == os[id := os[id].(stockStatus := Confirmed)]
  {
    if id in os && os[id].stockStatus == Reserved {
      ApplyItemsSucceedsIff(SellUnguarded, ps, os[id].items);
      if LegacyConfirmTx(ps, os, id).Ok? {
        ApplyItemsEffect(SellUnguarded, ps, os[id].items);
      }
    }
  }

  /**
   * With no guard, legacy confirm sells stock that was never reserved and is
   * not there: one unit in stock, none reserved, an order for two leaves
   * `countInStock` at -1 and `reservedStock` at -2, where the current
   * confirm refuses.
   */
  lemma LegacyConfirmOverdraws()
    ensures var ps := map["p" := Product("P", 1, 1, 0, 0)];
      var os := map["o" := Order([OrderItem("p", "P", 2)], Reserved, None, None, None, false, false)];
      && LegacyConfirmTx(ps, os, "o").Ok?
      && LegacyConfirmTx(ps, os, "o").value.products["p"] == Product("P", -1, 1, -2, 2)
      && ConfirmTx(ps, os, "o") == Err(InvalidReservedStock("P"))
  {
    var ps := map["p" := Product("P", 1, 1, 0, 0)];
    var items := [OrderItem("p", "P", 2)];
    assert items[1..] == [];
    assert ApplyItems(SellUnguarded, ps, items) == Ok(ps["p" := Sell(ps["p"], 2)]);
    assert ApplyItems(SellGuarded, ps, items) == Err(InvalidReservedStock("P"));
  }

  /**
   * The single attempt is the retrying transaction under a conflict that
   * repeats on every attempt or never occurs.
   */
  lemma SingleAttemptIsSteadyRetry(tx: Result<Committed, StockError>, conflict: bool)
    ensures var t := StockActions.Transaction(tx, (k: nat) => conflict);
      && (SingleAttempt(tx, conflict).Ok? <==> t.Success?)
      && (t.Success? ==> SingleAttempt(tx, conflict).value == t.value)
      && (t.Failure? ==> SingleAttempt(tx, conflict).error == t.error)
  {
    StockActions.TransactionOutcome(tx, (k: nat) => conflict);
  }

  /** A conflict on the first attempt only: the legacy call fails, the current one commits. */
  lemma RetryRecoversWhereLegacyFails(tx: Result<Committed, StockError>)
    requires tx.Ok?
    ensures SingleAttempt(tx, true) == Err(WriteConflict)
    ensures StockActions.Transaction(tx, (k: nat) => k == 1) == Success(tx.value)
  {
    StockActions.TransactionOutcome(tx, (k: nat) => k == 1);
  }

  // ---------------------------------------------------------------------------
  // The operations

  method LegacyReserveAttempt(ps: Products, os: Orders, id: OrderId, now: int) returns (t: Result<Committed, StockError>)
    ensures t == LegacyReserveTx(ps, os, id, now)
  {
    if id !in os {
      return Err(OrderNotFound);
    }
    var order := os[id];
    if order.stockStatus != Reserved {
      return Err(AlreadyProcessed);
    }
    var expiryDate := now + RESERVATION_TIMEOUT_MS;
    var held := ApplyItemsLoop(ReserveByAvailable, ps, order.items);
    match held
    case Err(e) =>
      return Err(e);
    case Ok(next) =>
      return Ok(Committed(next, os[id := LegacyStamp(order, now)], ReservedUntil(expiryDate)));
  }

  method LegacyConfirmAttempt(ps: Products, os: Orders, id: OrderId) returns (t: Result<Committed, StockError>)
    ensures t == LegacyConfirmTx(ps, os, id)
  {
    if id !in os {
      return Err(OrderNotFound);
    }
    var order := os[id];
    if order.stockStatus == Confirmed {
      return Ok(Committed(ps, os, AlreadyApplied));
    }
    if order.stockStatus == Released {
      return Err(AlreadyReleased);
    }
    var sold := ApplyItemsLoop(SellUnguarded, ps, order.items);
    match sold
    case Err(e) =>
      return Err(e);
    case Ok(next) =>
      return Ok(Committed(next, os[id := order.(stockStatus := Confirmed)], Applied));
  }

  /** Commit the attempt, or abort it and rethrow. */
  method RunOnce(db: Db, tx: Result<Committed, StockError>, conflict: bool) returns (r: Result<Reply, StockError>)
    modifies db
    ensures Settled(SingleAttempt(tx, conflict), old(db.products), old(db.orders), r, db.products, db.orders)
  {
    if conflict {
      return Err(WriteConflict);
    }
    match tx
    case Ok(c) =>
      db.products := c.products;
      db.orders := c.orders;
      r := Ok(c.reply);
    case Err(e) =>
      r := Err(e);
  }

  method ReserveStock(db: Db, orderId: OrderId, now: int, conflict: bool) returns (r: Result<Reply, StockError>)
    modifies db
    ensures Settled(SingleAttempt(LegacyReserveTx(old(db.products), old(db.orders), orderId, now), conflict),
                    old(db.products), old(db.orders), r, db.products, db.orders)
  {
    var tx := LegacyReserveAttempt(db.products, db.orders, orderId, now);
    r := RunOnce(db, tx, conflict);
  }

  method ConfirmStock(db: Db, orderId: OrderId, conflict: bool) returns (r: Result<Reply, StockError>)
    modifies db
    ensures Settled(SingleAttempt(LegacyConfirmTx(old(db.products), old(db.orders), orderId), conflict),
                    old(db.products), old(db.orders), r, db.products, db.orders)
  {
    var tx := LegacyConfirmAttempt(db.products, db.orders, orderId);
    r := RunOnce(db, tx, conflict);
  }

  method ReleaseStock(db: Db, orderId: OrderId, reason: CancelReason, conflict: bool) returns (r: Result<Reply, StockError>)
    modifies db
    ensures Settled(SingleAttempt(ReleaseTx(old(db.products), old(db.orders), orderId, reason), conflict),
                    old(db.products), old(db.orders), r, db.products, db.orders)
  {
    var tx := StockActions.ReleaseAttempt(db.products, db.orders, orderId, reason);
    r := RunOnce(db, tx, conflict);
  }

  // ---------------------------------------------------------------------------
  // The legacy reaper

  /** One iteration: release with reason "expired" and record the outcome; no lock. */
  function LegacyReapOne(ps: Products, os: Orders, id: OrderId, conflict: bool): StockActions.Reaped
  {
    match SingleAttempt(ReleaseTx(ps, os, id, Expired), conflict)
    case Ok(c) => StockActions.Reaped(c.products, c.orders, StockActions.ReapResult(id, true, StockActions.NoMessage))
    case Err(e) => StockActions.Reaped(ps, os, StockActions.ReapResult(id, false, StockActions.Error(e)))
  }

  function LegacyReapAll(st: StockActions.ReapState, ids: seq<OrderId>, conflicts: OrderId -> bool): StockActions.ReapState
    decreases |ids|
  {
    if ids == [] then st
    else
      var last := ids[|ids| - 1];
      var before := LegacyReapAll(st, ids[..|ids| - 1], conflicts);
      var step := LegacyReapOne(before.products, before.orders, last, conflicts(last));
      StockActions.ReapState(step.products, step.orders, before.results + [step.result])
  }

  /**
   * The legacy reaper is the current one with a reachable lock store and a
   * conflict that, for each order, either hits every attempt or none; so
   * everything proved of the current reaper's loop holds of it too.
   */
  lemma {:induction false} LegacyReapIsSteadyReap(st: StockActions.ReapState, ids: seq<OrderId>, conflicts: OrderId -> bool)
    ensures LegacyReapAll(st, ids, conflicts)
         == StockActions.ReapAll(st, ids, true, (id: OrderId) => (k: nat) => conflicts(id))
    decreases |ids|
  {
    if ids != [] {
      var last := ids[|ids| - 1];
      var init := ids[..|ids| - 1];
      var steady := (id: OrderId) => (k: nat) => conflicts(id);
      LegacyReapIsSteadyReap(st, init, conflicts);
      var before := LegacyReapAll(st, init, conflicts);
      var tx := ReleaseTx(before.products, before.orders, last, Expired);
      StockActions.TransactionOutcome(tx, steady(last));
      assert LegacyReapOne(before.products, before.orders, last, conflicts(last))
          == StockActions.ReapOne(before.products, before.orders, last, true, steady(last));
    }
  }

  /**
   * The legacy reaper releases every matching order, not a batch: with no
   * conflicts and distinct matches, each expired reservation ends released
   * with reason "expired", every result succeeds, and none is expired after.
   */
  lemma LegacyReapReleasesAll(os: Orders, ps: Products, scan: seq<OrderId>, now: int)
    requires Distinct(scan)
    ensures var ids := StockActions.MatchingExpired(os, scan, now);
      var fin := LegacyReapAll(StockActions.ReapState(ps, os, []), ids, (id: OrderId) => false);
      && |fin.results| == |ids|
      && fin.orders.Keys == os.Keys
      && (forall i :: 0 <= i < |ids| ==> fin.results[i] == StockActions.ReapResult(ids[i], true, StockActions.NoMessage))
      && (forall id :: id in scan && id in os && StockActions.IsExpired(os[id], now) ==>
            fin.orders[id].stockStatus == Released && fin.orders[id].cancelReason == Some(Expired))
  {
    var ids := StockActions.MatchingExpired(os, scan, now);
    var st := StockActions.ReapState(ps, os, []);
    var none := (id: OrderId) => false;
    MatchingExpiredDistinct(os, scan, now);
    LegacyReapIsSteadyReap(st, ids, none);
    StockActions.ReapReleasesCandidates(st, ids, (id: OrderId) => (k: nat) => none(id));
  }

  /** A scan without repeats yields matches without repeats. */
  lemma {:induction false} MatchingExpiredDistinct(os: Orders, scan: seq<OrderId>, now: int)
    requires Distinct(scan)
    ensures Distinct(StockActions.MatchingExpired(os, scan, now))
    decreases |scan|
  {
    if scan != [] {
      var tail := scan[1..];
      DistinctTail(scan);
      MatchingExpiredDistinct(os, tail, now);
      var rest := StockActions.MatchingExpired(os, tail, now);
      if scan[0] in os && StockActions.IsExpired(os[scan[0]], now) {
        DistinctCons(scan[0], rest);
      }
    }
  }

  method LegacyReapOrder(db: Db, orderId: OrderId, conflict: bool) returns (result: StockActions.ReapResult)
    modifies db
    ensures StockActions.Reaped(db.products, db.orders, result) == LegacyReapOne(old(db.products), old(db.orders), orderId, conflict)
  {
    var r := ReleaseStock(db, orderId, Expired, conflict);
    match r
    case Ok(_) =>
      result := StockActions.ReapResult(orderId, true, StockActions.NoMessage);
    case Err(e) =>
      result := StockActions.ReapResult(orderId, false, StockActions.Error(e));
  }

  /** `releaseExpiredReservations`: every expired reserved order, in the collection's order. */
  method ReleaseExpiredReservations(db: Db, scan: seq<OrderId>, now: int, conflicts: OrderId -> bool)
    returns (processed: nat, results: seq<StockActions.ReapResult>)
    requires ScanOf(db.orders, scan)
    modifies db
    ensures LegacyReapAll(StockActions.ReapState(old(db.products), old(db.orders), []),
                          StockActions.MatchingExpired(old(db.orders), scan, now), conflicts)
         == StockActions.ReapState(db.products, db.orders, results)
    ensures processed == |results|
  {
    var expiredOrders := StockActions.MatchingExpired(db.orders, scan, now);
    ghost var init := StockActions.ReapState(db.products, db.orders, []);
    results := [];
    var i := 0;
    while i < |expiredOrders|
      invariant 0 <= i <= |expiredOrders|
      invariant LegacyReapAll(init, expiredOrders[..i], conflicts) == StockActions.ReapState(db.products, db.orders, results)
    {
      var orderId := expiredOrders[i];
      assert expiredOrders[..i + 1][..i] == expiredOrders[..i];
      var result := LegacyReapOrder(db, orderId, conflicts(orderId));
      results := results + [result];
      i := i + 1;
    }
    assert expiredOrders[..i] == expiredOrders;
    processed := |results|;
  }
}
