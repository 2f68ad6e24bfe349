/**
 * lib/actions/stock.actions.ts: reserveStock, confirmStock and releaseStock
 * (each under the order lock, with the bounded retry loop around its
 * transaction) and the reaper releaseExpiredReservations.
 *
 * A transaction attempt reads the committed collections and either commits
 * or aborts, leaving nothing behind, so every attempt of one call computes
 * the same body; attempts differ only in whether the store reports a write
 * conflict, which `conflictAt(k)` says for attempt k.
 */
module StockActions {
  import opened Base
  import opened StockLedger
  import opened TransactionRetry
  import opened RedisLock

  const DEFAULT_BATCH_SIZE: nat := 100
  /** TTL of the reaper's own order lock, in seconds. */
  const REAPER_LOCK_TTL: nat := 15

  /** How attempt k of a transaction ends. */
  function AttemptOf(conflictAt: nat -> bool, tx: Result<Committed, StockError>): nat -> Attempt<Committed, StockError>
  {
    (k: nat) => if conflictAt(k) then Conflict(WriteConflict)
         else match tx
              case Ok(c) => Done(c)
              case Err(e) => Fatal(e)
  }

  /** The outcome of the retry loop around a transaction body. */
  function Transaction(tx: Result<Committed, StockError>, conflictAt: nat -> bool): Outcome<Committed, StockError>
  {
    Retry(AttemptOf(conflictAt, tx)).outcome
  }

  /**
   * Write conflicts stay invisible unless all three attempts hit one; any
   * other error is the body's own and is thrown at once.
   */
  lemma TransactionOutcome(tx: Result<Committed, StockError>, conflictAt: nat -> bool)
    ensures Transaction(tx, conflictAt) ==
      if conflictAt(1) && conflictAt(2) && conflictAt(3) then Failure(WriteConflict)
      else match tx
           case Ok(c) => Success(c)
           case Err(e) => Failure(e)
  {
    var a := AttemptOf(conflictAt, tx);
    if !conflictAt(1) {
      RetryAbsorbsConflicts(a, 1);
    } else if !conflictAt(2) {
      RetryAbsorbsConflicts(a, 2);
    } else if !conflictAt(3) {
      RetryAbsorbsConflicts(a, 3);
    }
  }

  function ReplyOf(t: Outcome<Committed, StockError>): Result<Reply, StockError>
  {
    match t
    case Success(c) => Ok(c.reply)
    case Failure(e) => Err(e)
  }

  /** The call answered `r` and left the collections as the transaction outcome `t` says. */
  predicate Settled(t: Outcome<Committed, StockError>, ps: Products, os: Orders,
                    r: Result<Reply, StockError>, ps': Products, os': Orders)
  {
    && r == ReplyOf(t)
    && ps' == (if t.Success? then t.value.products else ps)
    && os' == (if t.Success? then t.value.orders else os)
  }

  /** The retry loop and the commit of its outcome. */
  method RetryTransaction(db: Db, tx: Result<Committed, StockError>, conflictAt: nat -> bool)
    returns (r: Result<Reply, StockError>)
    modifies db
    ensures Settled(Transaction(tx, conflictAt), old(db.products), old(db.orders), r, db.products, db.orders)
  {
    var run := RunWithRetry(AttemptOf(conflictAt, tx));
    match run.outcome
    case Success(c) =>
      db.products := c.products;
      db.orders := c.orders;
      r := Ok(c.reply);
    case Failure(e) =>
      r := Err(e);
  }

  // ---------------------------------------------------------------------------
  // Transaction bodies, written as the source's statements

  method ReserveAttempt(ps: Products, os: Orders, id: OrderId, now: int) returns (t: Result<Committed, StockError>)
    ensures t == ReserveTx(ps, os, id, now)
  {
    if id !in os {
      return Err(OrderNotFound);
    }
    var order := os[id];
    if order.stockStatus != Reserved {
      return Err(AlreadyProcessed);
    }
    var expiryDate := now + RESERVATION_TIMEOUT_MS;
    var held := ApplyItemsLoop(ReserveByFree, ps, order.items);
    match held
    case Err(e) =>
      return Err(e);
    case Ok(next) =>
      return Ok(Committed(next, os[id := ReserveStamp(order, now)], ReservedUntil(expiryDate)));
  }

  method ConfirmAttempt(ps: Products, os: Orders, id: OrderId) returns (t: Result<Committed, StockError>)
    ensures t == ConfirmTx(ps, os, id)
  {
    if id !in os {
      return Err(OrderNotFound);
    }
    var order := os[id];
    if order.stockStatus == Confirmed {
      return Ok(Committed(ps, os, AlreadyApplied));
    }
    if order.stockStatus == Released {
      return Err(AlreadyReleased);
    }
    var sold := ApplyItemsLoop(SellGuarded, ps, order.items);
    match sold
    case Err(e) =>
      return Err(e);
    case Ok(next) =>
      return Ok(Committed(next, os[id := order.(stockStatus := Confirmed)], Applied));
  }

  method ReleaseAttempt(ps: Products, os: Orders, id: OrderId, reason: CancelReason) returns (t: Result<Committed, StockError>)
    ensures t == ReleaseTx(ps, os, id, reason)
  {
    if id !in os {
      return Err(OrderNotFound);
    }
    var order := os[id];
    if order.stockStatus == Released {
      return Ok(Committed(ps, os, AlreadyApplied));
    }
    if order.stockStatus == Confirmed {
      return Err(CannotReleaseConfirmed);
    }
    var returned := ApplyItemsLoop(Unreserve, ps, order.items);
    match returned
    case Err(e) =>
      return Err(e);
    case Ok(next) =>
      return Ok(Committed(next, os[id := order.(stockStatus := Released, cancelReason := Some(reason))], Applied));
  }

  // ---------------------------------------------------------------------------
  // The exported operations

  method ReserveStock(db: Db, locks: LockStore, orderId: OrderId, now: int, conflictAt: nat -> bool)
    returns (r: Result<Reply, StockError>)
    modifies db, locks
    ensures locks.reachable == old(locks.reachable)
    ensures !old(locks.reachable) ==>
      r == Err(OrderBusy) && db.products == old(db.products) && db.orders == old(db.orders) && locks.keys == old(locks.keys)
    ensures old(locks.reachable) ==>
      && Settled(Transaction(ReserveTx(old(db.products), old(db.orders), orderId, now), conflictAt),
                 old(db.products), old(db.orders), r, db.products, db.orders)
      && locks.keys == old(locks.keys) - {MakeLockKey(OrderLock, orderId)}
  {
    var locked := locks.AcquireOrderLock(orderId);
    if !locked {
      return Err(OrderBusy);
    }
    var tx := ReserveAttempt(db.products, db.orders, orderId, now);
    r := RetryTransaction(db, tx, conflictAt);
    locks.ReleaseOrderLock(orderId);
  }

  method ConfirmStock(db: Db, locks: LockStore, orderId: OrderId, conflictAt: nat -> bool)
    returns (r: Result<Reply, StockError>)
    modifies db, locks
    ensures locks.reachable == old(locks.reachable)
    ensures !old(locks.reachable) ==>
      r == Err(OrderBusy) && db.products == old(db.products) && db.orders == old(db.orders) && locks.keys == old(locks.keys)
    ensures old(locks.reachable) ==>
      && Settled(Transaction(ConfirmTx(old(db.products), old(db.orders), orderId), conflictAt),
                 old(db.products), old(db.orders), r, db.products, db.orders)
      && locks.keys == old(locks.keys) - {MakeLockKey(OrderLock, orderId)}
  {
    var locked := locks.AcquireOrderLock(orderId);
    if !locked {
      return Err(OrderBusy);
    }
    var tx := ConfirmAttempt(db.products, db.orders, orderId);
    r := RetryTransaction(db, tx, conflictAt);
    locks.ReleaseOrderLock(orderId);
  }

  method ReleaseStock(db: Db, locks: LockStore, orderId: OrderId, reason: CancelReason, conflictAt: nat -> bool)
    returns (r: Result<Reply, StockError>)
    modifies db, locks
    ensures locks.reachable == old(locks.reachable)
    ensures !old(locks.reachable) ==>
      r == Err(OrderBusy) && db.products == old(db.products) && db.orders == old(db.orders) && locks.keys == old(locks.keys)
    ensures old(locks.reachable) ==>
      && Settled(Transaction(ReleaseTx(old(db.products), old(db.orders), orderId, reason), conflictAt),
                 old(db.products), old(db.orders), r, db.products, db.orders)
      && locks.keys == old(locks.keys) - {MakeLockKey(OrderLock, orderId)}
  {
    var locked := locks.AcquireOrderLock(orderId);
    if !locked {
      return Err(OrderBusy);
    }
    var tx := ReleaseAttempt(db.products, db.orders, orderId, reason);
    r := RetryTransaction(db, tx, conflictAt);
    locks.ReleaseOrderLock(orderId);
  }

  // ---------------------------------------------------------------------------
  // The reaper

  predicate IsExpired(o: Order, now: int)
  {
    o.stockStatus == Reserved && o.stockReservationExpiry.Some? && o.stockReservationExpiry.value < now
  }

  /** The orders of `scan` (the collection's natural order) that the query matches. */
  function MatchingExpired(os: Orders, scan: seq<OrderId>, now: int): (r: seq<OrderId>)
    ensures |r| <= |scan|
    ensures forall i :: 0 <= i < |r| ==> r[i] in os && IsExpired(os[r[i]], now)
    ensures forall id :: id in scan && id in os && IsExpired(os[id], now) ==> id in r
    ensures forall id :: id in r ==> id in scan
    decreases |scan|
  {
    if scan == [] then []
    else
      var rest := MatchingExpired(os, scan[1..], now);
      assert forall id :: id in scan && id != scan[0] ==> id in scan[1..];
      if scan[0] in os && IsExpired(os[scan[0]], now) then [scan[0]] + rest else rest
  }

  /** `.limit(batchSize)`: the first batchSize matches; a limit of 0 is no limit. */
  function ExpiredOrders(os: Orders, scan: seq<OrderId>, now: int, batchSize: nat): (r: seq<OrderId>)
    ensures r <= MatchingExpired(os, scan, now)
    ensures |r| == if batchSize == 0 then |MatchingExpired(os, scan, now)| else Min(batchSize, |MatchingExpired(os, scan, now)|)
    ensures forall i :: 0 <= i < |r| ==> r[i] in os && IsExpired(os[r[i]], now)
    ensures batchSize == 0 || |MatchingExpired(os, scan, now)| <= batchSize ==>
      forall id :: id in scan && id in os && IsExpired(os[id], now) ==> id in r
  {
    var all := MatchingExpired(os, scan, now);
    if batchSize == 0 || |all| <= batchSize then all else all[..batchSize]
  }

  datatype ReapNote = NoMessage | SkippedLocked | Error(error: StockError)

  datatype ReapResult = ReapResult(orderId: OrderId, success: bool, note: ReapNote)

  datatype ReapState = ReapState(products: Products, orders: Orders, results: seq<ReapResult>)

  /** What one iteration of the reaper's loop leaves behind. */
  datatype Reaped = Reaped(products: Products, orders: Orders, result: ReapResult)

  /**
   * One iteration: take the order lock (which, with no if-absent flag,
   * succeeds whenever the store answers), run releaseStock with reason
   * "expired" (whose own acquire of the same key succeeds for the same
   * reason) and record its outcome.
   */
  function ReapOne(ps: Products, os: Orders, id: OrderId, reachable: bool, conflictAt: nat -> bool): Reaped
  {
    if !reachable then
      Reaped(ps, os, ReapResult(id, false, SkippedLocked))
    else
      match Transaction(ReleaseTx(ps, os, id, Expired), conflictAt)
      case Success(c) => Reaped(c.products, c.orders, ReapResult(id, true, NoMessage))
      case Failure(e) => Reaped(ps, os, ReapResult(id, false, Error(e)))
  }

  function ReapAll(st: ReapState, ids: seq<OrderId>, reachable: bool, conflicts: OrderId -> nat -> bool): ReapState
    decreases |ids|
  {
    if ids == [] then st
    else
      var last := ids[|ids| - 1];
      var before := ReapAll(st, ids[..|ids| - 1], reachable, conflicts);
      var step := ReapOne(before.products, before.orders, last, reachable, conflicts(last));
      ReapState(step.products, step.orders, before.results + [step.result])
  }

  lemma ReapAllSnoc(st: ReapState, ids: seq<OrderId>, reachable: bool, conflicts: OrderId -> nat -> bool)
    requires ids != []
    ensures
      var last := ids[|ids| - 1];
      var before := ReapAll(st, ids[..|ids| - 1], reachable, conflicts);
      var step := ReapOne(before.products, before.orders, last, reachable, conflicts(last));
      ReapAll(st, ids, reachable, conflicts) == ReapState(step.products, step.orders, before.results + [step.result])
  {
  }

  function OrderLockKeys(ids: seq<OrderId>): set<string>
  {
    set id | id in ids :: MakeLockKey(OrderLock, id)
  }

  /** Reaping one more candidate after a known prefix. */
  lemma ReapAllStep(st: ReapState, ids: seq<OrderId>, id: OrderId, reachable: bool, conflicts: OrderId -> nat -> bool, mid: ReapState)
    requires ReapAll(st, ids, reachable, conflicts) == mid
    ensures var step := ReapOne(mid.products, mid.orders, id, reachable, conflicts(id));
      ReapAll(st, ids + [id], reachable, conflicts) == ReapState(step.products, step.orders, mid.results + [step.result])
  {
    assert (ids + [id])[..|ids|] == ids;
    ReapAllSnoc(st, ids + [id], reachable, conflicts);
  }

  lemma OrderLockKeysSnoc(ids: seq<OrderId>, id: OrderId)
    ensures OrderLockKeys(ids + [id]) == OrderLockKeys(ids) + {MakeLockKey(OrderLock, id)}
  {
  }

  /** One reaper iteration touches only its own order, and its nested lock never reports the order busy. */
  lemma ReapOneFacts(ps: Products, os: Orders, id: OrderId, reachable: bool, conflictAt: nat -> bool)
    ensures var r := ReapOne(ps, os, id, reachable, conflictAt);
      && r.result.orderId == id
      && r.result.note != Error(OrderBusy)
      && r.result.success == (r.result.note == NoMessage)
      && r.orders.Keys == os.Keys
      && (forall x :: x in os && x != id ==> r.orders[x] == os[x])
      && (Balanced(ps) ==> Balanced(r.products))
      && (!reachable ==> r == Reaped(ps, os, ReapResult(id, false, SkippedLocked)))
      && (reachable && id in os && os[id].stockStatus == Reserved && !(conflictAt(1) && conflictAt(2) && conflictAt(3)) ==>
            && r.result.success
            && r.orders[id].stockStatus == Released
            && r.orders[id].cancelReason == Some(Expired))
  {
    var tx := ReleaseTx(ps, os, id, Expired);
    TransactionOutcome(tx, conflictAt);
    ReleaseTxSpec(ps, os, id, Expired);
    if Balanced(ps) {
      TransactionsKeepBalance(ps, os, id, 0, Expired);
    }
  }

  /**
   * The reaper records exactly one result per candidate, in order, and never
   * lets one order's failure stop the batch; only the candidates' own orders
   * change, and the ledger stays balanced. With the store unreachable every
   * candidate is skipped as locked and nothing changes.
   */
  lemma {:induction false} ReapAllShape(st: ReapState, ids: seq<OrderId>, reachable: bool, conflicts: OrderId -> nat -> bool)
    ensures var fin := ReapAll(st, ids, reachable, conflicts);
      && |fin.results| == |st.results| + |ids|
      && fin.results[..|st.results|] == st.results
      && (forall i :: 0 <= i < |ids| ==> fin.results[|st.results| + i].orderId == ids[i])
      && (forall i :: |st.results| <= i < |fin.results| ==> fin.results[i].note != Error(OrderBusy))
      && fin.orders.Keys == st.orders.Keys
      && (forall x :: x in st.orders && x !in ids ==> fin.orders[x] == st.orders[x])
      && (Balanced(st.products) ==> Balanced(fin.products))
      && (!reachable ==>
            && fin.products == st.products
            && fin.orders == st.orders
            && forall i :: 0 <= i < |ids| ==> fin.results[|st.results| + i] == ReapResult(ids[i], false, SkippedLocked))
    decreases |ids|
  {
    if ids != [] {
      var last := ids[|ids| - 1];
      var init := ids[..|ids| - 1];
      ReapAllShape(st, init, reachable, conflicts);
      var before := ReapAll(st, init, reachable, conflicts);
      ReapOneFacts(before.products, before.orders, last, reachable, conflicts(last));
      var step := ReapOne(before.products, before.orders, last, reachable, conflicts(last));
      var fin := ReapAll(st, ids, reachable, conflicts);
      assert fin.results == before.results + [step.result];
      forall i | 0 <= i < |ids|
        ensures fin.results[|st.results| + i].orderId == ids[i]
        ensures !reachable ==> fin.results[|st.results| + i] == ReapResult(ids[i], false, SkippedLocked)
      {
        if i < |init| {
          assert ids[i] == init[i];
          assert fin.results[|st.results| + i] == before.results[|st.results| + i];
        } else {
          assert fin.results[|st.results| + i] == step.result;
        }
      }
      assert forall i :: |st.results| <= i < |before.results| ==> fin.results[i] == before.results[i];
      forall x | x in st.orders && x !in ids ensures fin.orders[x] == st.orders[x] {
        assert x !in init && x != last;
      }
    }
  }

  /**
   * Expiry reaping: when the store answers, every candidate is a distinct
   * reserved order and none of them meets three write conflicts in a row,
   * each candidate ends released with reason "expired", every result is a
   * success, and a later query no longer finds any of them.
   */
  lemma {:induction false} ReapReleasesCandidates(st: ReapState, ids: seq<OrderId>, conflicts: OrderId -> nat -> bool)
    requires forall i, j :: 0 <= i < j < |ids| ==> ids[i] != ids[j]
    requires forall id :: id in ids ==> id in st.orders && st.orders[id].stockStatus == Reserved
    requires forall id :: id in ids ==> !(conflicts(id)(1) && conflicts(id)(2) && conflicts(id)(3))
    ensures var fin := ReapAll(st, ids, true, conflicts);
      && |fin.results| == |st.results| + |ids|
      && fin.orders.Keys == st.orders.Keys
      && (forall i :: 0 <= i < |ids| ==> fin.results[|st.results| + i] == ReapResult(ids[i], true, NoMessage))
      && (forall id :: id in ids ==> fin.orders[id].stockStatus == Released && fin.orders[id].cancelReason == Some(Expired))
      && (forall id, later :: id in ids ==> !IsExpired(fin.orders[id], later))
    decreases |ids|
  {
    if ids != [] {
      var last := ids[|ids| - 1];
      var init := ids[..|ids| - 1];
      assert ids == init + [last];
      assert forall id :: id in init ==> id in ids;
      assert last !in init;
      ReapReleasesCandidates(st, init, conflicts);
      ReapReleasesStep(st, init, last, conflicts);
    }
  }

  /** What the reaper has achieved after the candidates `ids`, starting from `st`. */
  predicate ReleasedAll(st: ReapState, ids: seq<OrderId>, fin: ReapState)
  {
    && |fin.results| == |st.results| + |ids|
    && fin.orders.Keys == st.orders.Keys
    && (forall i :: 0 <= i < |ids| ==> fin.results[|st.results| + i] == ReapResult(ids[i], true, NoMessage))
    && (forall id :: id in ids ==> id in fin.orders && fin.orders[id].stockStatus == Released && fin.orders[id].cancelReason == Some(Expired))
  }

  /** One more reserved candidate, reaped without three conflicts, joins the released ones. */
  lemma ReapReleasesStep(st: ReapState, init: seq<OrderId>, last: OrderId, conflicts: OrderId -> nat -> bool)
    requires last !in init
    requires last in st.orders && st.orders[last].stockStatus == Reserved
    requires !(conflicts(last)(1) && conflicts(last)(2) && conflicts(last)(3))
    requires ReleasedAll(st, init, ReapAll(st, init, true, conflicts))
    ensures ReleasedAll(st, init + [last], ReapAll(st, init + [last], true, conflicts))
  {
    var ids := init + [last];
    var before := ReapAll(st, init, true, conflicts);
    ReapAllLeaves(st, init, true, conflicts, last);
    ReapOneReleases(before.products, before.orders, last, conflicts(last));
    var step := ReapOne(before.products, before.orders, last, true, conflicts(last));
    ReapAllStep(st, init, last, true, conflicts, before);
    var fin := ReapAll(st, ids, true, conflicts);
    assert fin.results == before.results + [step.result];
    forall i | 0 <= i < |ids|
      ensures fin.results[|st.results| + i] == ReapResult(ids[i], true, NoMessage)
    {
      if i < |init| {
        assert ids[i] == init[i];
        assert fin.results[|st.results| + i] == before.results[|st.results| + i];
      }
    }
    forall id | id in ids
      ensures id in fin.orders && fin.orders[id].stockStatus == Released && fin.orders[id].cancelReason == Some(Expired)
    {
      if id != last {
        assert id in init;
      }
    }
  }

  /** An order the reaper does not visit keeps its record. */
  lemma ReapAllLeaves(st: ReapState, ids: seq<OrderId>, reachable: bool, conflicts: OrderId -> nat -> bool, x: OrderId)
    requires x !in ids
    ensures var fin := ReapAll(st, ids, reachable, conflicts);
      && |fin.results| == |st.results| + |ids|
      && fin.orders.Keys == st.orders.Keys
      && (x in st.orders ==> fin.orders[x] == st.orders[x])
  {
    ReapAllShape(st, ids, reachable, conflicts);
  }

  /** A reachable store and a reserved order that meets a conflict-free attempt: the order is released as expired. */
  lemma ReapOneReleases(ps: Products, os: Orders, id: OrderId, conflictAt: nat -> bool)
    requires id in os && os[id].stockStatus == Reserved && !(conflictAt(1) && conflictAt(2) && conflictAt(3))
    ensures var r := ReapOne(ps, os, id, true, conflictAt);
      && r.result == ReapResult(id, true, NoMessage)
      && r.orders.Keys == os.Keys
      && r.orders[id].stockStatus == Released && r.orders[id].cancelReason == Some(Expired)
      && (forall x :: x in os && x != id ==> r.orders[x] == os[x])
  {
    ReapOneFacts(ps, os, id, true, conflictAt);
  }

  /** The body of the reaper's loop for one order. */
  method ReapOrder(db: Db, locks: LockStore, orderId: OrderId, conflictAt: nat -> bool) returns (result: ReapResult)
    modifies db, locks
    ensures Reaped(db.products, db.orders, result) == ReapOne(old(db.products), old(db.orders), orderId, old(locks.reachable), conflictAt)
    ensures locks.reachable == old(locks.reachable)
    ensures locks.keys == if old(locks.reachable) then old(locks.keys) - {MakeLockKey(OrderLock, orderId)} else old(locks.keys)
  {
    var locked := locks.AcquireOrderLock(orderId, REAPER_LOCK_TTL);
    if !locked {
      return ReapResult(orderId, false, SkippedLocked);
    }
    var r := ReleaseStock(db, locks, orderId, Expired, conflictAt);
    match r
    case Ok(_) =>
      result := ReapResult(orderId, true, NoMessage);
    case Err(e) =>
      result := ReapResult(orderId, false, Error(e));
    locks.ReleaseOrderLock(orderId);
  }

  /** One pass of the reaper's loop: the fold and the released lock keys each take one more order. */
  lemma ReapCandidatesStep(init: ReapState, ids: seq<OrderId>, id: OrderId, reachable: bool, conflicts: OrderId -> nat -> bool,
                           keys0: map<string, nat>, mid: ReapState, midKeys: map<string, nat>,
                           ps: Products, os: Orders, result: ReapResult, nextKeys: map<string, nat>)
    requires ReapAll(init, ids, reachable, conflicts) == mid
    requires midKeys == if reachable then keys0 - OrderLockKeys(ids) else keys0
    requires Reaped(ps, os, result) == ReapOne(mid.products, mid.orders, id, reachable, conflicts(id))
    requires nextKeys == if reachable then midKeys - {MakeLockKey(OrderLock, id)} else midKeys
    ensures ReapAll(init, ids + [id], reachable, conflicts) == ReapState(ps, os, mid.results + [result])
    ensures nextKeys == if reachable then keys0 - OrderLockKeys(ids + [id]) else keys0
  {
    ReapAllStep(init, ids, id, reachable, conflicts, mid);
    OrderLockKeysSnoc(ids, id);
  }

  /** The reaper's loop over the orders the query returned. */
  method ReapCandidates(db: Db, locks: LockStore, candidates: seq<OrderId>, conflicts: OrderId -> nat -> bool)
    returns (results: seq<ReapResult>)
    modifies db, locks
    ensures ReapAll(ReapState(old(db.products), old(db.orders), []), candidates, old(locks.reachable), conflicts)
         == ReapState(db.products, db.orders, results)
    ensures locks.reachable == old(locks.reachable)
    ensures locks.keys == if old(locks.reachable) then old(locks.keys) - OrderLockKeys(candidates) else old(locks.keys)
  {
    ghost var init := ReapState(db.products, db.orders, []);
    ghost var reachable := locks.reachable;
    ghost var keys0 := locks.keys;
    results := [];
    var i := 0;
    while i < |candidates|
      invariant 0 <= i <= |candidates|
      invariant locks.reachable == reachable
      invariant ReapAll(init, candidates[..i], reachable, conflicts) == ReapState(db.products, db.orders, results)
      invariant locks.keys == if reachable then keys0 - OrderLockKeys(candidates[..i]) else keys0
    {
      var orderId := candidates[i];
      ghost var mid := ReapState(db.products, db.orders, results);
      ghost var midKeys := locks.keys;
      var result := ReapOrder(db, locks, orderId, conflicts(orderId));
      ReapCandidatesStep(init, candidates[..i], orderId, reachable, conflicts, keys0, mid, midKeys,
                         db.products, db.orders, result, locks.keys);
      assert candidates[..i + 1] == candidates[..i] + [orderId];
      results := results + [result];
      i := i + 1;
    }
    assert candidates[..|candidates|] == candidates;
  }

  method ReleaseExpiredReservations(db: Db, locks: LockStore, scan: seq<OrderId>, now: int,
                                    conflicts: OrderId -> nat -> bool, batchSize: nat := DEFAULT_BATCH_SIZE)
    returns (processed: nat, results: seq<ReapResult>)
    requires ScanOf(db.orders, scan)
    modifies db, locks
    ensures
      var candidates := ExpiredOrders(old(db.orders), scan, now, batchSize);
      var fin := ReapAll(ReapState(old(db.products), old(db.orders), []), candidates, old(locks.reachable), conflicts);
      && db.products == fin.products
      && db.orders == fin.orders
      && results == fin.results
      && processed == |results|
      && locks.reachable == old(locks.reachable)
      && locks.keys == if old(locks.reachable) then old(locks.keys) - OrderLockKeys(candidates) else old(locks.keys)
  {
    var candidates := ExpiredOrders(db.orders, scan, now, batchSize);
    results := ReapCandidates(db, locks, candidates, conflicts);
    processed := |results|;
  }
}
