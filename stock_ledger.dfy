/**
 * The stock ledger shared by lib/actions/stock.actions.ts,
 * lib/actions/stock.actions_old.ts and scripts/migrate-stock.ts: the product
 * counters, the order's stock fields, the per-item `$inc` updates and the
 * three transaction bodies (reserve, confirm, release) as pure functions of
 * the committed product and order collections.
 */
module StockLedger {
  import opened Base

  type ProductId = string
  type OrderId = string

  const RESERVATION_TIMEOUT_MINUTES: nat := 30
  /** Reservation lifetime in milliseconds (times are Date values in ms). */
  const RESERVATION_TIMEOUT_MS: nat := RESERVATION_TIMEOUT_MINUTES * 60 * 1000

  datatype Product = Product(
    name: string,
    countInStock: int,
    availableStock: int,
    reservedStock: int,
    numSales: int)

  datatype OrderItem = OrderItem(product: ProductId, name: string, quantity: nat)

  datatype StockStatus = Reserved | Confirmed | Released

  datatype CancelReason = Cancelled | Expired

  datatype Order = Order(
    items: seq<OrderItem>,
    stockStatus: StockStatus,
    stockReservedAt: Option<int>,
    stockReservationExpiry: Option<int>,
    cancelReason: Option<CancelReason>,
    isPaid: bool,
    isDelivered: bool)

  type Products = map<ProductId, Product>
  type Orders = map<OrderId, Order>

  /** The errors the stock operations throw; item names are the order line's name. */
  datatype StockError =
    | OrderBusy                          // "Order is being processed by another request"
    | OrderNotFound                      // "Order not found"
    | AlreadyProcessed                   // "Order stock already processed"
    | ProductNotFound(name: string)      // "Product <name> not found"
    | NotEnoughStock(name: string, available: int)
    | InvalidReservedStock(name: string) // confirm guard: reservedStock < quantity
    | AlreadyReleased                    // "Stock already released, cannot confirm"
    | CannotReleaseConfirmed             // "Cannot release confirmed stock"
    | WriteConflict                      // the store's transient transaction error

  /** What a committed transaction answers. */
  datatype Reply =
    | ReservedUntil(expiryDate: int)     // { success, expiryDate }
    | Applied                            // { success }
    | AlreadyApplied                     // { success, message: "Stock already ..." }

  datatype Committed = Committed(products: Products, orders: Orders, reply: Reply)

  // ---------------------------------------------------------------------------
  // Counter updates

  /** Stock a reservation may still take: physical stock minus what is held. */
  function Free(p: Product): int { p.countInStock - p.reservedStock }

  /** `$inc: { availableStock: -q, reservedStock: q }` */
  function Hold(p: Product, q: int): Product
  {
    p.(availableStock := p.availableStock - q, reservedStock := p.reservedStock + q)
  }

  /** `$inc: { countInStock: -q, reservedStock: -q, numSales: q }` */
  function Sell(p: Product, q: int): Product
  {
    p.(countInStock := p.countInStock - q, reservedStock := p.reservedStock - q, numSales := p.numSales + q)
  }

  /** `$inc: { availableStock: q, reservedStock: -q }` */
  function Unhold(p: Product, q: int): Product
  {
    p.(availableStock := p.availableStock + q, reservedStock := p.reservedStock - q)
  }

  predicate Distinct(s: seq<OrderId>)
  {
    forall i, j :: 0 <= i < j < |s| ==> s[i] != s[j]
  }

  lemma DistinctTail(s: seq<OrderId>)
    requires Distinct(s) && s != []
    ensures Distinct(s[1..]) && s[0] !in s[1..]
  {
    assert forall j :: 0 <= j < |s[1..]| ==> s[1..][j] == s[j + 1];
  }

  lemma DistinctCons(x: OrderId, s: seq<OrderId>)
    requires Distinct(s) && x !in s
    ensures Distinct([x] + s)
  {
    var r := [x] + s;
    forall i, j | 0 <= i < j < |r| ensures r[i] != r[j] {
      assert r[j] == s[j - 1];
      if i > 0 { assert r[i] == s[i - 1]; }
    }
  }

  /**
   * `scan` is the orders collection in its natural order, as a query walks
   * it: every order exactly once.
   */
  predicate ScanOf(os: Orders, scan: seq<OrderId>)
  {
    multiset(scan) == multiset(os.Keys)
  }

  /** A scan of the collection holds no order twice and exactly the orders there are. */
  lemma ScanOfFacts(os: Orders, scan: seq<OrderId>)
    requires ScanOf(os, scan)
    ensures Distinct(scan)
    ensures forall id :: id in os <==> id in scan
  {
    forall id ensures id in os <==> id in scan {
      assert id in scan <==> id in multiset(scan);
      assert id in os.Keys <==> id in multiset(os.Keys);
    }
    forall i, j | 0 <= i < j < |scan| ensures scan[i] != scan[j] {
      RepeatCountsTwice(scan, i, j);
      assert multiset(os.Keys)[scan[j]] <= 1;
    }
  }

  lemma RepeatCountsTwice(s: seq<OrderId>, i: nat, j: nat)
    requires i < j < |s|
    ensures s[i] == s[j] ==> multiset(s)[s[j]] >= 2
  {
    var x := s[j];
    assert s == s[..j] + [x] + s[j + 1..];
    assert s[i] == s[..j][i];
  }

  /** `availableStock + reservedStock == countInStock` for every product. */
  predicate Balanced(ps: Products)
  {
    forall pid :: pid in ps ==> ps[pid].availableStock + ps[pid].reservedStock == ps[pid].countInStock
  }

  predicate NonNegative(ps: Products)
  {
    forall pid :: pid in ps ==>
      ps[pid].countInStock >= 0 && ps[pid].availableStock >= 0 && ps[pid].reservedStock >= 0
  }

  // ---------------------------------------------------------------------------
  // The per-item loops

  /** Which per-item loop is run: its check and its `$inc`. */
  datatype ItemRule =
    | ReserveByFree       // reserveStock: requires countInStock - reservedStock >= quantity
    | ReserveByAvailable  // legacy reserveStock: requires availableStock >= quantity
    | SellGuarded         // confirmStock: requires reservedStock >= quantity
    | SellUnguarded       // legacy confirmStock: no check
    | Unreserve           // releaseStock: skips deleted products
    | Rereserve           // migration: no check, update of a missing product matches nothing

  /** A missing product aborts the loop. */
  predicate NeedsProduct(rule: ItemRule)
  {
    rule != Unreserve && rule != Rereserve
  }

  /** The loop checks the quantity against a budget. */
  predicate Limited(rule: ItemRule)
  {
    rule == ReserveByFree || rule == ReserveByAvailable || rule == SellGuarded
  }

  function Budget(rule: ItemRule, p: Product): int
  {
    match rule
    case ReserveByFree => Free(p)
    case ReserveByAvailable => p.availableStock
    case SellGuarded => p.reservedStock
    case _ => 0
  }

  function Shift(rule: ItemRule, p: Product, q: int): Product
  {
    match rule
    case ReserveByFree => Hold(p, q)
    case ReserveByAvailable => Hold(p, q)
    case Rereserve => Hold(p, q)
    case SellGuarded => Sell(p, q)
    case SellUnguarded => Sell(p, q)
    case Unreserve => Unhold(p, q)
  }

  function Shortfall(rule: ItemRule, name: string, p: Product): StockError
  {
    if rule == SellGuarded then InvalidReservedStock(name) else NotEnoughStock(name, Budget(rule, p))
  }

  /** One iteration: read the product as updated so far in the transaction, check, `$inc`. */
  function ApplyItem(rule: ItemRule, ps: Products, it: OrderItem): Result<Products, StockError>
  {
    if it.product !in ps then
      if NeedsProduct(rule) then Err(ProductNotFound(it.name)) else Ok(ps)
    else
      var p := ps[it.product];
      if Limited(rule) && Budget(rule, p) < it.quantity then Err(Shortfall(rule, it.name, p))
      else Ok(ps[it.product := Shift(rule, p, it.quantity)])
  }

  /** The whole loop; the first error aborts it and nothing of it survives. */
  function ApplyItems(rule: ItemRule, ps: Products, items: seq<OrderItem>): Result<Products, StockError>
    decreases |items|
  {
    if items == [] then Ok(ps)
    else
      match ApplyItem(rule, ps, items[0])
      case Err(e) => Err(e)
      case Ok(next) => ApplyItems(rule, next, items[1..])
  }

  method ApplyItemsLoop(rule: ItemRule, ps: Products, items: seq<OrderItem>) returns (r: Result<Products, StockError>)
    ensures r == ApplyItems(rule, ps, items)
  {
    var cur := ps;
    var i := 0;
    while i < |items|
      invariant 0 <= i <= |items|
      invariant ApplyItems(rule, ps, items) == ApplyItems(rule, cur, items[i..])
    {
      var it := items[i];
      assert items[i..][0] == it && items[i..][1..] == items[i + 1..];
      if it.product !in cur {
        if NeedsProduct(rule) {
          return Err(ProductNotFound(it.name));
        }
      } else {
        var p := cur[it.product];
        if Limited(rule) && Budget(rule, p) < it.quantity {
          return Err(Shortfall(rule, it.name, p));
        }
        cur := cur[it.product := Shift(rule, p, it.quantity)];
      }
      i := i + 1;
    }
    return Ok(cur);
  }

  /** Total quantity the lines of an order ask of one product. */
  function Qty(items: seq<OrderItem>, pid: ProductId): nat
    decreases |items|
  {
    if items == [] then 0
    else (if items[0].product == pid then items[0].quantity else 0) + Qty(items[1..], pid)
  }

  predicate AllKnown(ps: Products, items: seq<OrderItem>)
  {
    forall i :: 0 <= i < |items| ==> items[i].product in ps
  }

  /** Some line of the order refers to `pid`. */
  predicate Mentions(items: seq<OrderItem>, pid: ProductId)
    decreases |items|
  {
    items != [] && (items[0].product == pid || Mentions(items[1..], pid))
  }

  lemma {:induction false} UnmentionedQtyZero(items: seq<OrderItem>, pid: ProductId)
    requires !Mentions(items, pid)
    ensures Qty(items, pid) == 0
    decreases |items|
  {
    if items != [] {
      UnmentionedQtyZero(items[1..], pid);
    }
  }

  /** Every product the order refers to can cover all of the order's lines for it. */
  predicate WithinBudget(rule: ItemRule, ps: Products, items: seq<OrderItem>)
  {
    forall pid :: pid in ps && Mentions(items, pid) ==> Qty(items, pid) <= Budget(rule, ps[pid])
  }

  /** When the loop gets through every item. */
  predicate Admissible(rule: ItemRule, ps: Products, items: seq<OrderItem>)
  {
    && (NeedsProduct(rule) ==> AllKnown(ps, items))
    && (Limited(rule) ==> WithinBudget(rule, ps, items))
  }

  /**
   * The loop succeeds exactly when every product it needs exists and, for
   * every product, all the lines together stay within its budget: a single
   * shortfall anywhere aborts the whole order.
   */
  lemma {:induction false} ApplyItemsSucceedsIff(rule: ItemRule, ps: Products, items: seq<OrderItem>)
    ensures ApplyItems(rule, ps, items).Ok? <==> Admissible(rule, ps, items)
    decreases |items|
  {
    if items != [] {
      var it, rest := items[0], items[1..];
      if it.product !in ps {
        if NeedsProduct(rule) {
          assert !AllKnown(ps, items) by { assert items[0].product !in ps; }
        } else {
          assert ApplyItems(rule, ps, items) == ApplyItems(rule, ps, rest);
          ApplyItemsSucceedsIff(rule, ps, rest);
          if Limited(rule) {
            // unreachable: the rules that skip missing products check no budget
            assert false;
          }
        }
      } else {
        var p := ps[it.product];
        if Limited(rule) && Budget(rule, p) < it.quantity {
          QtyCons(items, it.product);
          assert Mentions(items, it.product);
        } else {
          var next := ps[it.product := Shift(rule, p, it.quantity)];
          assert ApplyItem(rule, ps, it) == Ok(next);
          assert ApplyItems(rule, ps, items) == ApplyItems(rule, next, rest);
          ApplyItemsSucceedsIff(rule, next, rest);
          StepAllKnown(ps, next, items);
          if Limited(rule) {
            StepWithinBudget(rule, ps, items);
          }
        }
      }
    }
  }

  /** The total for a product splits into the first line's share and the rest's. */
  lemma QtyCons(items: seq<OrderItem>, pid: ProductId)
    requires items != []
    ensures Qty(items, pid) == (if items[0].product == pid then items[0].quantity else 0) + Qty(items[1..], pid)
  {
  }

  /** One step of the loop keeps "every product exists" in step with the rest of the lines. */
  lemma StepAllKnown(ps: Products, next: Products, items: seq<OrderItem>)
    requires items != [] && items[0].product in ps && next.Keys == ps.Keys
    ensures AllKnown(next, items[1..]) <==> AllKnown(ps, items)
  {
    var rest := items[1..];
    if AllKnown(next, rest) {
      forall i | 0 <= i < |items| ensures items[i].product in ps {
        if i > 0 { assert items[i] == rest[i - 1]; }
      }
    }
    if AllKnown(ps, items) {
      forall i | 0 <= i < |rest| ensures rest[i].product in next {
        assert rest[i] == items[i + 1];
      }
    }
  }

  /** Spending one line's quantity from its product's budget leaves the rest of the lines as admissible as the whole. */
  lemma StepWithinBudget(rule: ItemRule, ps: Products, items: seq<OrderItem>)
    requires items != [] && items[0].product in ps && Limited(rule)
    requires items[0].quantity <= Budget(rule, ps[items[0].product])
    ensures var it := items[0];
      var next := ps[it.product := Shift(rule, ps[it.product], it.quantity)];
      WithinBudget(rule, next, items[1..]) <==> WithinBudget(rule, ps, items)
  {
    var it, rest := items[0], items[1..];
    var p := ps[it.product];
    var next := ps[it.product := Shift(rule, p, it.quantity)];
    assert Budget(rule, next[it.product]) == Budget(rule, p) - it.quantity;
    QtyCons(items, it.product);
    if !Mentions(rest, it.product) {
      UnmentionedQtyZero(rest, it.product);
    }
    if WithinBudget(rule, ps, items) {
      forall pid | pid in next && Mentions(rest, pid)
        ensures Qty(rest, pid) <= Budget(rule, next[pid])
      {
        QtyCons(items, pid);
      }
    }
    if WithinBudget(rule, next, rest) {
      forall pid | pid in ps && Mentions(items, pid)
        ensures Qty(items, pid) <= Budget(rule, ps[pid])
      {
        QtyCons(items, pid);
      }
    }
  }

  /** A successful iteration shifts the line's product, when present, and nothing else. */
  lemma ApplyItemEffect(rule: ItemRule, ps: Products, it: OrderItem)
    requires ApplyItem(rule, ps, it).Ok?
    ensures var next := ApplyItem(rule, ps, it).value;
      && next.Keys == ps.Keys
      && forall pid :: pid in ps ==> next[pid] == if pid == it.product then Shift(rule, ps[pid], it.quantity) else ps[pid]
  {
  }

  /** Two shifts by the same rule add up. */
  lemma ShiftAdd(rule: ItemRule, p: Product, a: int, b: int)
    ensures Shift(rule, Shift(rule, p, a), b) == Shift(rule, p, a + b)
  {
  }

  /**
   * A successful loop moves each product's counters by the total quantity of
   * its lines and touches nothing else.
   */
  lemma {:induction false} ApplyItemsEffect(rule: ItemRule, ps: Products, items: seq<OrderItem>)
    requires ApplyItems(rule, ps, items).Ok?
    ensures ApplyItems(rule, ps, items).value.Keys == ps.Keys
    ensures forall pid :: pid in ps ==> ApplyItems(rule, ps, items).value[pid] == Shift(rule, ps[pid], Qty(items, pid))
    decreases |items|
  {
    if items == [] {
      assert forall pid :: pid in ps ==> Shift(rule, ps[pid], 0) == ps[pid];
    } else {
      var it, rest := items[0], items[1..];
      var next := ApplyItem(rule, ps, it).value;
      ApplyItemEffect(rule, ps, it);
      ApplyItemsEffect(rule, next, rest);
      var out := ApplyItems(rule, ps, items).value;
      forall pid | pid in ps
        ensures out[pid] == Shift(rule, ps[pid], Qty(items, pid))
      {
        if pid == it.product {
          assert Qty(items, pid) == it.quantity + Qty(rest, pid);
          ShiftAdd(rule, ps[pid], it.quantity, Qty(rest, pid));
        } else {
          assert Qty(items, pid) == Qty(rest, pid);
        }
      }
    }
  }

  // ---------------------------------------------------------------------------
  // Transaction bodies

  function ReserveStamp(o: Order, now: int): Order
  {
    o.(stockReservedAt := Some(now), stockReservationExpiry := Some(now + RESERVATION_TIMEOUT_MS), stockStatus := Reserved)
  }

  /** The body of one attempt of `reserveStock`. */
  function ReserveTx(ps: Products, os: Orders, id: OrderId, now: int): Result<Committed, StockError>
  {
    if id !in os then Err(OrderNotFound)
    else if os[id].stockStatus != Reserved then Err(AlreadyProcessed)
    else
      match ApplyItems(ReserveByFree, ps, os[id].items)
      case Err(e) => Err(e)
      case Ok(next) =>
        Ok(Committed(next, os[id := ReserveStamp(os[id], now)], ReservedUntil(now + RESERVATION_TIMEOUT_MS)))
  }

  /** The body of one attempt of `confirmStock`. */
  function ConfirmTx(ps: Products, os: Orders, id: OrderId): Result<Committed, StockError>
  {
    if id !in os then Err(OrderNotFound)
    else if os[id].stockStatus == Confirmed then Ok(Committed(ps, os, AlreadyApplied))
    else if os[id].stockStatus == Released then Err(AlreadyReleased)
    else
      match ApplyItems(SellGuarded, ps, os[id].items)
      case Err(e) => Err(e)
      case Ok(next) => Ok(Committed(next, os[id := os[id].(stockStatus := Confirmed)], Applied))
  }

  /** The body of one attempt of `releaseStock` (the same in the legacy file). */
  function ReleaseTx(ps: Products, os: Orders, id: OrderId, reason: CancelReason): Result<Committed, StockError>
  {
    if id !in os then Err(OrderNotFound)
    else if os[id].stockStatus == Released then Ok(Committed(ps, os, AlreadyApplied))
    else if os[id].stockStatus == Confirmed then Err(CannotReleaseConfirmed)
    else
      match ApplyItems(Unreserve, ps, os[id].items)
      case Err(e) => Err(e)
      case Ok(next) =>
        Ok(Committed(next, os[id := os[id].(stockStatus := Released, cancelReason := Some(reason))], Applied))
  }

  // ---------------------------------------------------------------------------
  // Properties of the transactions

  /**
   * reserveStock succeeds exactly on a reserved order whose products all
   * exist and can each cover the order's total quantity from
   * countInStock - reservedStock; it then holds that quantity and stamps the
   * order with a 30-minute expiry. Otherwise nothing changes.
   */
  lemma ReserveTxSpec(ps: Products, os: Orders, id: OrderId, now: int)
    ensures id !in os ==> ReserveTx(ps, os, id, now) == Err(OrderNotFound)
    ensures id in os && os[id].stockStatus != Reserved ==> ReserveTx(ps, os, id, now) == Err(AlreadyProcessed)
    ensures ReserveTx(ps, os, id, now).Ok? <==>
      id in os && os[id].stockStatus == Reserved && Admissible(ReserveByFree, ps, os[id].items)
    ensures ReserveTx(ps, os, id, now).Ok? ==>
      var c := ReserveTx(ps, os, id, now).value;
      && c.products.Keys == ps.Keys
      && (forall pid :: pid in ps ==> c.products[pid] == Hold(ps[pid], Qty(os[id].items, pid)))
      && c.orders == os[id := ReserveStamp(os[id], now)]
      && c.orders[id].stockReservationExpiry == Some(now + 30 * 60 * 1000)
      && c.reply == ReservedUntil(now + RESERVATION_TIMEOUT_MS)
  {
    if id in os && os[id].stockStatus == Reserved {
      ApplyItemsSucceedsIff(ReserveByFree, ps, os[id].items);
      if ApplyItems(ReserveByFree, ps, os[id].items).Ok? {
        ApplyItemsEffect(ReserveByFree, ps, os[id].items);
      }
    }
  }

  /**
   * confirmStock is a no-op success on a confirmed order, rejects a released
   * one, and otherwise succeeds exactly when every product exists and holds at
   * least the order's quantity in reservedStock; it then turns the held
   * quantity into a sale and leaves availableStock alone.
   */
  lemma ConfirmTxSpec(ps: Products, os: Orders, id: OrderId)
    ensures id !in os ==> ConfirmTx(ps, os, id) == Err(OrderNotFound)
    ensures id in os && os[id].stockStatus == Confirmed ==> ConfirmTx(ps, os, id) == Ok(Committed(ps, os, AlreadyApplied))
    ensures id in os && os[id].stockStatus == Released ==> ConfirmTx(ps, os, id) == Err(AlreadyReleased)
    ensures id in os && os[id].stockStatus == Reserved ==>
      (ConfirmTx(ps, os, id).Ok? <==> Admissible(SellGuarded, ps, os[id].items))
    ensures id in os && os[id].stockStatus == Reserved && ConfirmTx(ps, os, id).Ok? ==>
      var c := ConfirmTx(ps, os, id).value;
      && c.products.Keys == ps.Keys
      && (forall pid :: pid in ps ==> c.products[pid] == Sell(ps[pid], Qty(os[id].items, pid)))
      && (forall pid :: pid in ps ==> c.products[pid].availableStock == ps[pid].availableStock)
      && c.orders == os[id := os[id].(stockStatus := Confirmed)]
  {
    if id in os && os[id].stockStatus == Reserved {
      ApplyItemsSucceedsIff(SellGuarded, ps, os[id].items);
      if ApplyItems(SellGuarded, ps, os[id].items).Ok? {
        ApplyItemsEffect(SellGuarded, ps, os[id].items);
      }
    }
  }

  /**
   * releaseStock is a no-op success on a released order, rejects a confirmed
   * one, and otherwise always succeeds: products that no longer exist are
   * skipped, the others get their held quantity back, countInStock is
   * untouched and the order records the reason.
   */
  lemma ReleaseTxSpec(ps: Products, os: Orders, id: OrderId, reason: CancelReason)
    ensures id !in os ==> ReleaseTx(ps, os, id, reason) == Err(OrderNotFound)
    ensures id in os && os[id].stockStatus == Released ==> ReleaseTx(ps, os, id, reason) == Ok(Committed(ps, os, AlreadyApplied))
    ensures id in os && os[id].stockStatus == Confirmed ==> ReleaseTx(ps, os, id, reason) == Err(CannotReleaseConfirmed)
    ensures id in os && os[id].stockStatus == Reserved ==>
      && ReleaseTx(ps, os, id, reason).Ok?
      && var c := ReleaseTx(ps, os, id, reason).value;
      && c.products.Keys == ps.Keys
      && (forall pid :: pid in ps ==> c.products[pid] == Unhold(ps[pid], Qty(os[id].items, pid)))
      && (forall pid :: pid in ps ==> c.products[pid].countInStock == ps[pid].countInStock)
      && c.orders == os[id := os[id].(stockStatus := Released, cancelReason := Some(reason))]
  {
    if id in os && os[id].stockStatus == Reserved {
      ApplyItemsSucceedsIff(Unreserve, ps, os[id].items);
      ApplyItemsEffect(Unreserve, ps, os[id].items);
    }
  }

  /** Confirming twice: the second call succeeds and changes nothing. */
  lemma ConfirmIdempotent(ps: Products, os: Orders, id: OrderId)
    requires ConfirmTx(ps, os, id).Ok?
    ensures var c := ConfirmTx(ps, os, id).value;
      ConfirmTx(c.products, c.orders, id) == Ok(Committed(c.products, c.orders, AlreadyApplied))
  {
  }

  /** Releasing twice: the second call succeeds and credits nothing again. */
  lemma ReleaseIdempotent(ps: Products, os: Orders, id: OrderId, r1: CancelReason, r2: CancelReason)
    requires ReleaseTx(ps, os, id, r1).Ok?
    ensures var c := ReleaseTx(ps, os, id, r1).value;
      ReleaseTx(c.products, c.orders, id, r2) == Ok(Committed(c.products, c.orders, AlreadyApplied))
  {
  }

  /** Releasing a reservation puts every product counter back where it was. */
  lemma ReleaseUndoesReserve(ps: Products, os: Orders, id: OrderId, now: int, reason: CancelReason)
    requires ReserveTx(ps, os, id, now).Ok?
    ensures var c := ReserveTx(ps, os, id, now).value;
      && ReleaseTx(c.products, c.orders, id, reason).Ok?
      && ReleaseTx(c.products, c.orders, id, reason).value.products == ps
  {
    var c := ReserveTx(ps, os, id, now).value;
    ReserveTxSpec(ps, os, id, now);
    ReleaseTxSpec(c.products, c.orders, id, reason);
    assert c.orders[id].items == os[id].items;
    var after := ReleaseTx(c.products, c.orders, id, reason).value.products;
    assert after.Keys == ps.Keys;
    forall pid | pid in ps ensures after[pid] == ps[pid] { }
  }

  /** Reserve then confirm: physical stock and availability both drop by the order's quantity, and the hold is gone. */
  lemma ConfirmAfterReserve(ps: Products, os: Orders, id: OrderId, now: int)
    requires ReserveTx(ps, os, id, now).Ok?
    requires forall pid :: pid in ps ==> ps[pid].reservedStock >= 0
    ensures var c := ReserveTx(ps, os, id, now).value;
      && ConfirmTx(c.products, c.orders, id).Ok?
      && var d := ConfirmTx(c.products, c.orders, id).value;
      && d.orders[id].stockStatus == Confirmed
      && forall pid :: pid in ps ==>
           && pid in d.products
           && d.products[pid].countInStock == ps[pid].countInStock - Qty(os[id].items, pid)
           && d.products[pid].availableStock == ps[pid].availableStock - Qty(os[id].items, pid)
           && d.products[pid].reservedStock == ps[pid].reservedStock
           && d.products[pid].numSales == ps[pid].numSales + Qty(os[id].items, pid)
  {
    var c := ReserveTx(ps, os, id, now).value;
    ReserveTxSpec(ps, os, id, now);
    var items := os[id].items;
    assert c.orders[id].items == items;
    assert Admissible(SellGuarded, c.products, items) by {
      assert forall pid :: pid in c.products ==> c.products[pid] == Hold(ps[pid], Qty(items, pid));
      assert AllKnown(c.products, items) by { ApplyItemsSucceedsIff(ReserveByFree, ps, items); }
    }
    ConfirmTxSpec(c.products, c.orders, id);
  }

  /** Every transaction keeps availableStock + reservedStock == countInStock. */
  lemma TransactionsKeepBalance(ps: Products, os: Orders, id: OrderId, now: int, reason: CancelReason)
    requires Balanced(ps)
    ensures ReserveTx(ps, os, id, now).Ok? ==> Balanced(ReserveTx(ps, os, id, now).value.products)
    ensures ConfirmTx(ps, os, id).Ok? ==> Balanced(ConfirmTx(ps, os, id).value.products)
    ensures ReleaseTx(ps, os, id, reason).Ok? ==> Balanced(ReleaseTx(ps, os, id, reason).value.products)
  {
    ReserveTxSpec(ps, os, id, now);
    ConfirmTxSpec(ps, os, id);
    ReleaseTxSpec(ps, os, id, reason);
  }

  /**
   * No oversell: on a balanced, non-negative ledger, reserving and confirming
   * never drive a counter below zero.
   */
  lemma ReserveAndConfirmKeepNonNegative(ps: Products, os: Orders, id: OrderId, now: int)
    requires Balanced(ps) && NonNegative(ps)
    ensures ReserveTx(ps, os, id, now).Ok? ==> NonNegative(ReserveTx(ps, os, id, now).value.products)
    ensures ConfirmTx(ps, os, id).Ok? ==> NonNegative(ConfirmTx(ps, os, id).value.products)
  {
    ReserveTxSpec(ps, os, id, now);
    ConfirmTxSpec(ps, os, id);
    if id in os {
      forall pid | pid in ps && !Mentions(os[id].items, pid) ensures Qty(os[id].items, pid) == 0 {
        UnmentionedQtyZero(os[id].items, pid);
      }
    }
  }

  /**
   * reserveStock does not move the order out of `reserved`, so the guard lets
   * a second call through: on success it holds the order's quantity again.
   */
  lemma ReserveTwiceHoldsTwice(ps: Products, os: Orders, id: OrderId, now: int, later: int)
    requires ReserveTx(ps, os, id, now).Ok?
    ensures var c := ReserveTx(ps, os, id, now).value;
      && c.orders[id].stockStatus == Reserved
      && (ReserveTx(c.products, c.orders, id, later).Ok? ==>
            forall pid :: pid in ps ==>
              && pid in ReserveTx(c.products, c.orders, id, later).value.products
              && ReserveTx(c.products, c.orders, id, later).value.products[pid].reservedStock
                == ps[pid].reservedStock + 2 * Qty(os[id].items, pid))
  {
    var c := ReserveTx(ps, os, id, now).value;
    ReserveTxSpec(ps, os, id, now);
    ReserveTxSpec(c.products, c.orders, id, later);
  }

  /**
   * The worked scenario: ten units, an order for four is reserved
   * (6 available, 4 held), then confirmed (6 physical, 6 available, 0 held);
   * reserving it again is refused.
   */
  lemma ReserveConfirmScenario(now: int)
    ensures
      var ps := map["P" := Product("P", 10, 10, 0, 0)];
      var os := map["O1" := Order([OrderItem("P", "P", 4)], Reserved, None, None, None, false, false)];
      && ReserveTx(ps, os, "O1", now).Ok?
      && var c := ReserveTx(ps, os, "O1", now).value;
      && "P" in c.products && c.products["P"] == Product("P", 10, 6, 4, 0)
      && ConfirmTx(c.products, c.orders, "O1").Ok?
      && var d := ConfirmTx(c.products, c.orders, "O1").value;
      && "P" in d.products && d.products["P"] == Product("P", 6, 6, 0, 4)
      && "O1" in d.orders && d.orders["O1"].stockStatus == Confirmed
      && ReserveTx(d.products, d.orders, "O1", now) == Err(AlreadyProcessed)
  {
    var ps := map["P" := Product("P", 10, 10, 0, 0)];
    var items := [OrderItem("P", "P", 4)];
    var os := map["O1" := Order(items, Reserved, None, None, None, false, false)];
    assert items[1..] == [];
    var held := map["P" := Product("P", 10, 6, 4, 0)];
    assert ps["P" := Hold(ps["P"], 4)] == held;
    assert ApplyItems(ReserveByFree, ps, items) == ApplyItems(ReserveByFree, held, []);
    var os1 := os["O1" := ReserveStamp(os["O1"], now)];
    assert ReserveTx(ps, os, "O1", now) == Ok(Committed(held, os1, ReservedUntil(now + RESERVATION_TIMEOUT_MS)));
    var sold := map["P" := Product("P", 6, 6, 0, 4)];
    assert held["P" := Sell(held["P"], 4)] == sold;
    assert ApplyItems(SellGuarded, held, items) == ApplyItems(SellGuarded, sold, []);
    var os2 := os1["O1" := os1["O1"].(stockStatus := Confirmed)];
    assert ConfirmTx(held, os1, "O1") == Ok(Committed(sold, os2, Applied));
  }

  /** The product and order collections, updated in place by the stock actions. */
  class Db {
    var products: Products
    var orders: Orders

    constructor (products: Products, orders: Orders)
      ensures this.products == products && this.orders == orders
    {
      this.products := products;
      this.orders := orders;
    }
  }
}
