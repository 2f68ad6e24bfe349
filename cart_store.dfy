/**
 * hooks/use-cart-store.ts: the client cart store. Its state is a class whose
 * methods update it in place; the line operations behind `addItem`,
 * `updateItem` and `removeItem` are functions on the list of lines, proved
 * separately. Prices come from `calcDeliveryDateAndPrice`, a parameter here;
 * the debounced save of `syncWithDB` is modelled as an immediate save.
 */
module CartStore {
  import opened Base
  import opened CartTypes
  import CartActions
  import CartDbActions

  // ---------------------------------------------------------------------------
  // The lines

  /** `items.find(x => same product, color and size)`, as an index. */
  function FindLine(items: seq<CartItem>, item: CartItem): (r: Option<nat>)
    ensures r.Some? ==> r.value < |items| && SameLine(items[r.value], item)
    ensures r.Some? ==> forall j :: 0 <= j < r.value ==> !SameLine(items[j], item)
    ensures r.None? <==> forall j :: 0 <= j < |items| ==> !SameLine(items[j], item)
    decreases |items|
  {
    if items == [] then None
    else if SameLine(items[0], item) then Some(0)
    else
      match FindLine(items[1..], item)
      case None => None
      case Some(k) => Some(k + 1)
  }

  /** `items.map(x => same line as item ? line : x)` */
  function ReplaceLines(items: seq<CartItem>, item: CartItem, line: CartItem): seq<CartItem>
  {
    seq(|items|, j requires 0 <= j < |items| => if SameLine(items[j], item) then line else items[j])
  }

  /** No two lines share a product, color and size. */
  predicate OneLinePerIdentity(items: seq<CartItem>)
  {
    forall i, j :: 0 <= i < j < |items| ==> !SameLine(items[i], items[j])
  }

  datatype CartError = NotEnoughStock   // "Not enough items in stock"

  /**
   * The lines after `addItem` as written: a new line's stock check reads the
   * incoming item's own `quantity` field rather than the quantity added.
   */
  function AddedLinesAsWritten(items: seq<CartItem>, item: CartItem, quantity: int): Result<seq<CartItem>, CartError>
  {
    match FindLine(items, item)
    case Some(k) =>
      var exist := items[k];
      if exist.countInStock < quantity + exist.quantity then Err(NotEnoughStock)
      else Ok(ReplaceLines(items, item, exist.(quantity := exist.quantity + quantity)))
    case None =>
      if item.countInStock < item.quantity then Err(NotEnoughStock)
      else Ok(items + [item.(quantity := quantity)])
  }

  /** The lines after `addItem`, the new line checked against the quantity it will hold. */
  function AddedLines(items: seq<CartItem>, item: CartItem, quantity: int): Result<seq<CartItem>, CartError>
  {
    match FindLine(items, item)
    case Some(k) =>
      var exist := items[k];
      if exist.countInStock < quantity + exist.quantity then Err(NotEnoughStock)
      else Ok(ReplaceLines(items, item, exist.(quantity := exist.quantity + quantity)))
    case None =>
      if item.countInStock < quantity then Err(NotEnoughStock)
      else Ok(items + [item.(quantity := quantity)])
  }

  /**
   * As written, a new line is admitted on the strength of the item's own
   * quantity: adding 10 of an item that says 1 with 5 in stock puts a line of
   * 10 against a stock of 5 into the cart. The checked version refuses it.
   */
  lemma AddNewLineCheckIgnoresQuantity()
    ensures var item := CartItem("c1", "p1", "Tee", "tee", "shirts", "tee.png", 10.0, "navy", "M", 1, 5);
      && AddedLinesAsWritten([], item, 10) == Ok([item.(quantity := 10)])
      && item.(quantity := 10).quantity > item.(quantity := 10).countInStock
      && AddedLines([], item, 10) == Err(NotEnoughStock)
  {
    var item := CartItem("c1", "p1", "Tee", "tee", "shirts", "tee.png", 10.0, "navy", "M", 1, 5);
    assert FindLine([], item) == None;
    assert [] + [item.(quantity := 10)] == [item.(quantity := 10)];
  }

  /**
   * As written, an add to an existing line succeeds exactly when the line's
   * new total fits its recorded stock, and a new line exactly when the
   * incoming item's own quantity fits its stock, whatever is added. The
   * line then holds the previous quantity plus the added one, against the
   * stock it records, and every other line is untouched.
   */
  lemma AddedLinesAsWrittenSpec(items: seq<CartItem>, item: CartItem, quantity: int)
    ensures var r := AddedLinesAsWritten(items, item, quantity);
      var found := FindLine(items, item);
      var before := if found.Some? then items[found.value].quantity else 0;
      var stock := if found.Some? then items[found.value].countInStock else item.countInStock;
      && (found.Some? ==> (r.Ok? <==> before + quantity <= stock))
      && (found.None? ==> (r.Ok? <==> item.quantity <= item.countInStock))
      && (r.Ok? ==>
           && FindLine(r.value, item).Some?
           && var line := r.value[FindLine(r.value, item).value];
              line.quantity == before + quantity && line.countInStock == stock && line.clientId == (if found.Some? then items[found.value].clientId else item.clientId))
      && (r.Ok? ==>
           && |r.value| == (if found.Some? then |items| else |items| + 1)
           && forall j :: 0 <= j < |items| && !SameLine(items[j], item) ==> r.value[j] == items[j])
  {
    var r := AddedLinesAsWritten(items, item, quantity);
    if r.Ok? {
      match FindLine(items, item)
      case Some(k) =>
        assert SameLine(r.value[k], item);
        assert FindLine(r.value, item).Some?;
      case None =>
        assert r.value[|items|] == item.(quantity := quantity);
        assert SameLine(r.value[|items|], item);
        assert forall j :: 0 <= j < |items| ==> r.value[j] == items[j];
        assert FindLine(r.value, item) == Some(|items|);
    }
  }

  /**
   * The two checks differ only for a new line whose incoming quantity field
   * is not the quantity added; otherwise the as-written add is the checked one.
   */
  lemma AddedLinesAgree(items: seq<CartItem>, item: CartItem, quantity: int)
    ensures FindLine(items, item).Some? || item.quantity == quantity ==>
      AddedLinesAsWritten(items, item, quantity) == AddedLines(items, item, quantity)
    ensures AddedLinesAsWritten(items, item, quantity).Ok? && AddedLines(items, item, quantity).Ok? ==>
      AddedLinesAsWritten(items, item, quantity) == AddedLines(items, item, quantity)
  {
  }

  /**
   * An add succeeds exactly when the line it leaves stays within the stock
   * the line records; it then holds the previous quantity plus the added one,
   * and every other line is untouched.
   */
  lemma AddedLinesWithinStock(items: seq<CartItem>, item: CartItem, quantity: int)
    ensures var r := AddedLines(items, item, quantity);
      var before := if FindLine(items, item).Some? then items[FindLine(items, item).value].quantity else 0;
      var stock := if FindLine(items, item).Some? then items[FindLine(items, item).value].countInStock else item.countInStock;
      && (r.Ok? <==> before + quantity <= stock)
      && (r.Ok? ==>
           && FindLine(r.value, item).Some?
           && var line := r.value[FindLine(r.value, item).value];
              line.quantity == before + quantity && line.quantity <= line.countInStock && line.countInStock == stock)
      && (r.Ok? ==>
           && |r.value| >= |items|
           && forall j :: 0 <= j < |items| && !SameLine(items[j], item) ==> r.value[j] == items[j])
  {
    var r := AddedLines(items, item, quantity);
    if r.Ok? {
      match FindLine(items, item)
      case Some(k) =>
        assert SameLine(r.value[k], item);
        assert FindLine(r.value, item).Some?;
      case None =>
        assert r.value[|items|] == item.(quantity := quantity);
        assert SameLine(r.value[|items|], item);
        assert forall j :: 0 <= j < |items| ==> r.value[j] == items[j];
        assert FindLine(r.value, item) == Some(|items|);
    }
  }

  /** An add keeps one line per product, color and size, and grows the cart only by a new identity. */
  lemma AddedLinesKeepIdentities(items: seq<CartItem>, item: CartItem, quantity: int)
    requires OneLinePerIdentity(items)
    ensures var r := AddedLinesAsWritten(items, item, quantity);
      r.Ok? ==>
        && OneLinePerIdentity(r.value)
        && (|r.value| == |items| + 1 <==> FindLine(items, item).None?)
  {
    var r := AddedLinesAsWritten(items, item, quantity);
    if r.Ok? {
      match FindLine(items, item)
      case Some(k) =>
        forall i, j | 0 <= i < j < |r.value| ensures !SameLine(r.value[i], r.value[j]) {
          assert !(SameLine(items[i], item) && SameLine(items[j], item));
        }
      case None =>
        forall i, j | 0 <= i < j < |r.value| ensures !SameLine(r.value[i], r.value[j]) {
          if j == |items| {
            assert r.value[i] == items[i];
          } else {
            assert r.value[i] == items[i] && r.value[j] == items[j];
          }
        }
    }
  }

  /** The lines after `updateItem`; `None` when no line matches and the store is left alone. */
  function UpdatedLines(items: seq<CartItem>, item: CartItem, quantity: int): Option<seq<CartItem>>
  {
    match FindLine(items, item)
    case None => None
    case Some(k) => Some(ReplaceLines(items, item, items[k].(quantity := quantity)))
  }

  /**
   * An update sets the quantity of the matching line and touches nothing
   * else; it does not check stock, and doing it twice is doing it once.
   */
  lemma UpdatedLinesSpec(items: seq<CartItem>, item: CartItem, quantity: int)
    requires OneLinePerIdentity(items)
    ensures var r := UpdatedLines(items, item, quantity);
      && (r.Some? <==> exists j :: 0 <= j < |items| && SameLine(items[j], item))
      && (r.Some? ==>
           && |r.value| == |items|
           && OneLinePerIdentity(r.value)
           && (forall j :: 0 <= j < |items| ==>
                 r.value[j] == if SameLine(items[j], item) then items[j].(quantity := quantity) else items[j])
           && UpdatedLines(r.value, item, quantity) == r)
  {
    var r := UpdatedLines(items, item, quantity);
    if r.Some? {
      var k := FindLine(items, item).value;
      forall j | 0 <= j < |items|
        ensures r.value[j] == if SameLine(items[j], item) then items[j].(quantity := quantity) else items[j]
      {
        if SameLine(items[j], item) {
          OnlyLineIsFirst(items, item, j);
        }
      }
      forall i, j | 0 <= i < j < |r.value| ensures !SameLine(r.value[i], r.value[j]) {
        assert !SameLine(items[i], items[j]);
      }
      var r2 := UpdatedLines(r.value, item, quantity);
      assert FindLine(r.value, item) == Some(k);
      assert r2.value == r.value;
    }
  }

  /** With one line per identity, a line matching the item is the one `find` returns. */
  lemma OnlyLineIsFirst(items: seq<CartItem>, item: CartItem, j: nat)
    requires OneLinePerIdentity(items)
    requires j < |items| && SameLine(items[j], item)
    ensures FindLine(items, item) == Some(j)
  {
  }

  /** `items.filter(x => x.clientId !== clientId)` */
  function RemovedLines(items: seq<CartItem>, clientId: string): (r: seq<CartItem>)
    ensures |r| <= |items|
    ensures forall x :: x in r <==> x in items && x.clientId != clientId
    decreases |items|
  {
    if items == [] then []
    else if items[0].clientId == clientId then RemovedLines(items[1..], clientId)
    else [items[0]] + RemovedLines(items[1..], clientId)
  }

  /** A remove keeps the other lines in their order, so it keeps one line per identity. */
  lemma {:induction false} RemovedLinesKeepIdentities(items: seq<CartItem>, clientId: string)
    requires OneLinePerIdentity(items)
    ensures OneLinePerIdentity(RemovedLines(items, clientId))
    decreases |items|
  {
    if items != [] {
      TailOneLinePerIdentity(items);
      RemovedLinesKeepIdentities(items[1..], clientId);
      if items[0].clientId != clientId {
        ConsOneLinePerIdentity(items, RemovedLines(items[1..], clientId));
      }
    }
  }

  lemma TailOneLinePerIdentity(items: seq<CartItem>)
    requires items != [] && OneLinePerIdentity(items)
    ensures OneLinePerIdentity(items[1..])
  {
    var tail := items[1..];
    forall i, j | 0 <= i < j < |tail| ensures !SameLine(tail[i], tail[j]) {
      assert tail[i] == items[i + 1] && tail[j] == items[j + 1];
    }
  }

  /** Putting back the first line in front of lines taken from the rest keeps one line per identity. */
  lemma ConsOneLinePerIdentity(items: seq<CartItem>, rest: seq<CartItem>)
    requires items != [] && OneLinePerIdentity(items)
    requires OneLinePerIdentity(rest)
    requires forall x :: x in rest ==> x in items[1..]
    ensures OneLinePerIdentity([items[0]] + rest)
  {
    var tail := items[1..];
    forall j | 0 <= j < |rest| ensures !SameLine(items[0], rest[j]) {
      assert rest[j] in tail;
      var m :| 0 <= m < |tail| && tail[m] == rest[j];
      assert tail[m] == items[m + 1];
    }
    var r := [items[0]] + rest;
    forall i, j | 0 <= i < j < |r| ensures !SameLine(r[i], r[j]) {
      if i == 0 {
        assert r[j] == rest[j - 1];
      } else {
        assert r[i] == rest[i - 1] && r[j] == rest[j - 1];
      }
    }
  }

  /** Removing a line the cart does not hold leaves the lines as they are. */
  lemma {:induction false} RemoveAbsent(items: seq<CartItem>, clientId: string)
    requires forall j :: 0 <= j < |items| ==> items[j].clientId != clientId
    ensures RemovedLines(items, clientId) == items
    decreases |items|
  {
    if items != [] {
      RemoveAbsent(items[1..], clientId);
    }
  }

  /** Removing a freshly added line by its client id restores the cart's lines. */
  lemma AddThenRemove(items: seq<CartItem>, item: CartItem, quantity: int)
    requires FindLine(items, item).None?
    requires forall j :: 0 <= j < |items| ==> items[j].clientId != item.clientId
    requires item.quantity <= item.countInStock
    ensures AddedLinesAsWritten(items, item, quantity).Ok?
    ensures RemovedLines(AddedLinesAsWritten(items, item, quantity).value, item.clientId) == items
  {
    RemovedAppend(items, [item.(quantity := quantity)], item.clientId);
    RemoveAbsent(items, item.clientId);
  }

  lemma {:induction false} RemovedAppend(a: seq<CartItem>, b: seq<CartItem>, clientId: string)
    ensures RemovedLines(a + b, clientId) == RemovedLines(a, clientId) + RemovedLines(b, clientId)
    decreases |a|
  {
    if a == [] {
      assert a + b == b;
    } else {
      assert (a + b)[0] == a[0];
      assert (a + b)[1..] == a[1..] + b;
      RemovedAppend(a[1..], b, clientId);
    }
  }

  /** `calcDeliveryDateAndPrice({ items, shippingAddress })` spread over the cart with its new lines. */
  function Repriced(c: Cart, items: seq<CartItem>, pricer: PriceInput -> Pricing): Cart
  {
    WithPricing(c.(items := items), pricer(PriceInput(items, c.shippingAddress, None)))
  }

  /** What a save leaves in the collection: the cart under the user's id, unless the database failed. */
  function SavedCarts(carts: map<UserId, Cart>, reachable: bool, userId: UserId, cart: Cart): map<UserId, Cart>
  {
    if reachable then carts[userId := cart] else carts
  }

  /** The outcome `mergeGuestCartOnLogin` reports. */
  datatype MergeReport = MergeReport(warnings: seq<CartDbActions.MergeWarning>, hasChanges: bool)

  // ---------------------------------------------------------------------------
  // The store

  class CartState {
    var cart: Cart
    var isLoggedIn: bool
    var userId: Option<UserId>
    var isSyncing: bool
    /** When the cart was last loaded or saved, in milliseconds. */
    var lastSyncedAt: Option<int>

    constructor()
      ensures cart == InitialCart && !isLoggedIn && userId == None && !isSyncing && lastSyncedAt == None
    {
      cart := InitialCart;
      isLoggedIn := false;
      userId := None;
      isSyncing := false;
      lastSyncedAt := None;
    }

    /**
     * The store after a page reload: `partialize` persisted the cart alone,
     * so the cart comes back and the session fields start over.
     */
    constructor Rehydrated(persisted: Cart)
      ensures cart == persisted && !isLoggedIn && userId == None && !isSyncing && lastSyncedAt == None
    {
      cart := persisted;
      isLoggedIn := false;
      userId := None;
      isSyncing := false;
      lastSyncedAt := None;
    }

    /** `syncWithDB`'s guard: signed in, with a non-empty user id, and no sync under way. */
    predicate SyncAllowed()
      reads this
    {
      isLoggedIn && userId.Some? && userId.value != "" && !isSyncing
    }

    /** `syncWithDB`: save the current cart and stamp the time when the save succeeds. */
    method SyncWithDB(db: CartDbActions.CartDb, now: int)
      modifies this, db
      ensures cart == old(cart) && isLoggedIn == old(isLoggedIn) && userId == old(userId) && isSyncing == old(isSyncing)
      ensures db.reachable == old(db.reachable)
      ensures db.carts == if old(SyncAllowed()) then SavedCarts(old(db.carts), db.reachable, userId.value, cart) else old(db.carts)
      ensures lastSyncedAt == if old(SyncAllowed()) && db.reachable then Some(now) else old(lastSyncedAt)
    {
      if !isLoggedIn || userId.None? || userId.value == "" || isSyncing {
        return;
      }
      isSyncing := true;
      var ok := db.SaveCartToDB(userId.value, cart);
      if ok {
        lastSyncedAt := Some(now);
      }
      isSyncing := false;
    }

    /**
     * `addItem`: add to the matching line or append a new one, refusing an
     * add the line's stock cannot cover (for a new line, as written, the
     * incoming item's own quantity), reprice, save, and return the client id
     * of the line now holding the item.
     */
    method AddItem(item: CartItem, quantity: int, pricer: PriceInput -> Pricing, db: CartDbActions.CartDb, now: int)
      returns (r: Result<string, CartError>)
      modifies this, db
      ensures AddedLinesAsWritten(old(cart.items), item, quantity).Err? ==>
        r == Err(NotEnoughStock) && cart == old(cart) && lastSyncedAt == old(lastSyncedAt) && db.carts == old(db.carts)
      ensures AddedLinesAsWritten(old(cart.items), item, quantity).Ok? ==>
        var lines := AddedLinesAsWritten(old(cart.items), item, quantity).value;
        && cart == Repriced(old(cart), lines, pricer)
        && FindLine(lines, item).Some?
        && r == Ok(lines[FindLine(lines, item).value].clientId)
        && db.carts == (if SyncAllowed() then SavedCarts(old(db.carts), db.reachable, userId.value, cart) else old(db.carts))
        && lastSyncedAt == (if SyncAllowed() && db.reachable then Some(now) else old(lastSyncedAt))
      ensures isLoggedIn == old(isLoggedIn) && userId == old(userId) && isSyncing == old(isSyncing)
      ensures db.reachable == old(db.reachable)
    {
      var added := AddedLinesAsWritten(cart.items, item, quantity);
      if added.Err? {
        return Err(NotEnoughStock);
      }
      var updatedCartItems := added.value;
      cart := Repriced(cart, updatedCartItems, pricer);
      SyncWithDB(db, now);
      AddedLinesAsWrittenSpec(old(cart.items), item, quantity);
      var found := FindLine(updatedCartItems, item);
      r := Ok(updatedCartItems[found.value].clientId);
    }

    /** `updateItem`: set the matching line's quantity, reprice and save; no match, no change. */
    method UpdateItem(item: CartItem, quantity: int, pricer: PriceInput -> Pricing, db: CartDbActions.CartDb, now: int)
      modifies this, db
      ensures UpdatedLines(old(cart.items), item, quantity).None? ==>
        cart == old(cart) && lastSyncedAt == old(lastSyncedAt) && db.carts == old(db.carts)
      ensures UpdatedLines(old(cart.items), item, quantity).Some? ==>
        && cart == Repriced(old(cart), UpdatedLines(old(cart.items), item, quantity).value, pricer)
        && db.carts == (if SyncAllowed() then SavedCarts(old(db.carts), db.reachable, userId.value, cart) else old(db.carts))
        && lastSyncedAt == (if SyncAllowed() && db.reachable then Some(now) else old(lastSyncedAt))
      ensures isLoggedIn == old(isLoggedIn) && userId == old(userId) && isSyncing == old(isSyncing)
      ensures db.reachable == old(db.reachable)
    {
      var updated := UpdatedLines(cart.items, item, quantity);
      if updated.None? {
        return;
      }
      cart := Repriced(cart, updated.value, pricer);
      SyncWithDB(db, now);
    }

    /** `removeItem`: drop the lines with this client id, reprice and save. */
    method RemoveItem(clientId: string, pricer: PriceInput -> Pricing, db: CartDbActions.CartDb, now: int)
      modifies this, db
      ensures cart == Repriced(old(cart), RemovedLines(old(cart.items), clientId), pricer)
      ensures db.carts == (if SyncAllowed() then SavedCarts(old(db.carts), db.reachable, userId.value, cart) else old(db.carts))
      ensures lastSyncedAt == (if SyncAllowed() && db.reachable then Some(now) else old(lastSyncedAt))
      ensures isLoggedIn == old(isLoggedIn) && userId == old(userId) && isSyncing == old(isSyncing)
      ensures db.reachable == old(db.reachable)
    {
      cart := Repriced(cart, RemovedLines(cart.items, clientId), pricer);
      SyncWithDB(db, now);
    }

    /** `setShippingAddress`: store the address, reprice for it and save. */
    method SetShippingAddress(address: ShippingAddress, pricer: PriceInput -> Pricing, db: CartDbActions.CartDb, now: int)
      modifies this, db
      ensures cart == WithPricing(old(cart).(shippingAddress := Some(address)), pricer(PriceInput(old(cart.items), Some(address), None)))
      ensures db.carts == (if SyncAllowed() then SavedCarts(old(db.carts), db.reachable, userId.value, cart) else old(db.carts))
      ensures lastSyncedAt == (if SyncAllowed() && db.reachable then Some(now) else old(lastSyncedAt))
      ensures isLoggedIn == old(isLoggedIn) && userId == old(userId) && isSyncing == old(isSyncing)
      ensures db.reachable == old(db.reachable)
    {
      cart := WithPricing(cart.(shippingAddress := Some(address)), pricer(PriceInput(cart.items, Some(address), None)));
      SyncWithDB(db, now);
    }

    /** `setPaymentMethod`: store the method and save; prices are left alone. */
    method SetPaymentMethod(paymentMethod: string, db: CartDbActions.CartDb, now: int)
      modifies this, db
      ensures cart == old(cart).(paymentMethod := Some(paymentMethod))
      ensures db.carts == (if SyncAllowed() then SavedCarts(old(db.carts), db.reachable, userId.value, cart) else old(db.carts))
      ensures lastSyncedAt == (if SyncAllowed() && db.reachable then Some(now) else old(lastSyncedAt))
      ensures isLoggedIn == old(isLoggedIn) && userId == old(userId) && isSyncing == old(isSyncing)
      ensures db.reachable == old(db.reachable)
    {
      cart := cart.(paymentMethod := Some(paymentMethod));
      SyncWithDB(db, now);
    }

    /** `setDeliveryDateIndex`: the index only reaches the cart through the pricing result. */
    method SetDeliveryDateIndex(index: int, pricer: PriceInput -> Pricing, db: CartDbActions.CartDb, now: int)
      modifies this, db
      ensures cart == WithPricing(old(cart), pricer(PriceInput(old(cart.items), old(cart.shippingAddress), Some(index))))
      ensures db.carts == (if SyncAllowed() then SavedCarts(old(db.carts), db.reachable, userId.value, cart) else old(db.carts))
      ensures lastSyncedAt == (if SyncAllowed() && db.reachable then Some(now) else old(lastSyncedAt))
      ensures isLoggedIn == old(isLoggedIn) && userId == old(userId) && isSyncing == old(isSyncing)
      ensures db.reachable == old(db.reachable)
    {
      cart := WithPricing(cart, pricer(PriceInput(cart.items, cart.shippingAddress, Some(index))));
      SyncWithDB(db, now);
    }

    /** `clearCart`: empty the cart and save the empty cart. */
    method ClearCart(db: CartDbActions.CartDb, now: int)
      modifies this, db
      ensures cart == InitialCart
      ensures db.carts == (if SyncAllowed() then SavedCarts(old(db.carts), db.reachable, userId.value, InitialCart) else old(db.carts))
      ensures lastSyncedAt == (if SyncAllowed() && db.reachable then Some(now) else old(lastSyncedAt))
      ensures isLoggedIn == old(isLoggedIn) && userId == old(userId) && isSyncing == old(isSyncing)
      ensures db.reachable == old(db.reachable)
    {
      cart := InitialCart;
      SyncWithDB(db, now);
    }

    /** `clearCartLocalStorage`: empty the cart without touching the stored one. */
    method ClearCartLocalStorage()
      modifies this
      ensures cart == InitialCart
      ensures isLoggedIn == old(isLoggedIn) && userId == old(userId) && isSyncing == old(isSyncing) && lastSyncedAt == old(lastSyncedAt)
    {
      cart := InitialCart;
    }

    /** `setAuthState` */
    method SetAuthState(isLoggedIn: bool, userId: Option<UserId>)
      modifies this
      ensures this.isLoggedIn == isLoggedIn && this.userId == userId
      ensures cart == old(cart) && isSyncing == old(isSyncing) && lastSyncedAt == old(lastSyncedAt)
    {
      this.isLoggedIn := isLoggedIn;
      this.userId := userId;
    }

    /** `syncCartStock`: replace the lines by the synced ones when the sync succeeded; nothing is saved. */
    method SyncCartStock(catalog: Option<Catalog>) returns (success: bool, removedCount: int)
      modifies this
      ensures var s := CartActions.SyncCartWithLatestStock(catalog, old(cart.items));
        && success == s.success && removedCount == s.removedCount
        && cart == (if s.success then old(cart).(items := s.items) else old(cart))
      ensures isLoggedIn == old(isLoggedIn) && userId == old(userId) && isSyncing == old(isSyncing) && lastSyncedAt == old(lastSyncedAt)
    {
      var result := CartActions.SyncCartWithLatestStock(catalog, cart.items);
      if result.success {
        cart := cart.(items := result.items);
      }
      success, removedCount := result.success, result.removedCount;
    }

    /**
     * `loadCartFromDB`: take the stored cart when there is one, otherwise
     * keep the current cart; either way the user is now signed in.
     */
    method LoadCartFromDB(db: CartDbActions.CartDb, userId: UserId, now: int)
      modifies this
      ensures var load := CartDbActions.LoadCart(db.reachable, db.carts, userId);
        && (load.success && load.data.Some? ==> cart == load.data.value && lastSyncedAt == Some(now))
        && (!(load.success && load.data.Some?) ==> cart == old(cart) && lastSyncedAt == old(lastSyncedAt))
      ensures this.userId == Some(userId) && isLoggedIn && !isSyncing
    {
      isSyncing := true;
      var result := db.GetUserCartFromDB(userId);
      if result.success && result.data.Some? {
        cart := result.data.value;
        this.userId := Some(userId);
        isLoggedIn := true;
        lastSyncedAt := Some(now);
      } else {
        this.userId := Some(userId);
        isLoggedIn := true;
      }
      isSyncing := false;
    }

    /**
     * `initializeCart`: skipped while a sync runs or within 5 seconds of the
     * last one; otherwise load the user's cart, or fall back to a guest.
     */
    method InitializeCart(db: CartDbActions.CartDb, userId: Option<UserId>, now: int)
      modifies this
      ensures old(isSyncing) || (old(lastSyncedAt).Some? && now - old(lastSyncedAt).value < 5000) ==>
        cart == old(cart) && isLoggedIn == old(isLoggedIn) && this.userId == old(this.userId)
        && isSyncing == old(isSyncing) && lastSyncedAt == old(lastSyncedAt)
      ensures !old(isSyncing) && !(old(lastSyncedAt).Some? && now - old(lastSyncedAt).value < 5000) ==>
        && !isSyncing
        && (userId.Some? && userId.value != "" ==>
              && isLoggedIn && this.userId == userId
              && var load := CartDbActions.LoadCart(db.reachable, db.carts, userId.value);
                 && cart == (if load.success && load.data.Some? then load.data.value else old(cart))
                 && lastSyncedAt == (if load.success && load.data.Some? then Some(now) else old(lastSyncedAt)))
        && (!(userId.Some? && userId.value != "") ==>
              !isLoggedIn && this.userId == None && cart == old(cart) && lastSyncedAt == old(lastSyncedAt))
    {
      if isSyncing {
        return;
      }
      if lastSyncedAt.Some? && now - lastSyncedAt.value < 5000 {
        return;
      }
      if userId.Some? && userId.value != "" {
        LoadCartFromDB(db, userId.value, now);
        isLoggedIn := true;
        this.userId := userId;
      } else {
        isLoggedIn := false;
        this.userId := None;
      }
    }

    /**
     * `mergeGuestCartOnLogin`: merge the guest cart into the stored one, take
     * the merged cart when the merge succeeded, and report its warnings.
     */
    method MergeGuestCartOnLogin(db: CartDbActions.CartDb, userId: UserId, catalog: Option<Catalog>,
                                 pricer: PriceInput -> Pricing, now: int)
      returns (report: MergeReport)
      modifies this, db
      ensures db.reachable == old(db.reachable) && !isSyncing
      ensures var dbCart := CartDbActions.LoadCart(old(db.reachable), old(db.carts), userId).data;
        var merged := CartDbActions.Merge(CartDbActions.StringKey, CartDbActions.DbItems(dbCart), old(cart.items));
        && (catalog.None? ==>
              report == MergeReport([], false) && db.carts == old(db.carts)
              && cart == old(cart) && lastSyncedAt == old(lastSyncedAt)
              && isLoggedIn == old(isLoggedIn) && this.userId == old(this.userId))
        && (catalog.Some? ==>
              var v := CartDbActions.ValidateLines(catalog.value, merged);
              var final := CartDbActions.FinalCart(v.items, old(cart), dbCart, pricer);
              && report == MergeReport(v.warnings, |v.warnings| > 0)
              && cart == final && this.userId == Some(userId) && isLoggedIn && lastSyncedAt == Some(now)
              && db.carts == SavedCarts(old(db.carts), db.reachable, userId, final))
    {
      isSyncing := true;
      var localCart := cart;
      var dbCartResult := db.GetUserCartFromDB(userId);
      var mergeResult := CartDbActions.MergeAndValidateCart(db, userId, dbCartResult.data, localCart, catalog, pricer);
      if mergeResult.success && mergeResult.data.Some? {
        cart := mergeResult.data.value;
        this.userId := Some(userId);
        isLoggedIn := true;
        lastSyncedAt := Some(now);
        report := MergeReport(mergeResult.warnings, mergeResult.hasChanges);
      } else {
        report := MergeReport([], false);
      }
      isSyncing := false;
    }
  }

  // ---------------------------------------------------------------------------
  // Properties across the store's operations

  /**
   * A signed-in store that adds a line and saves it leaves in the collection
   * a cart that loading returns, holding the added line.
   */
  lemma AddThenLoadSeesLine(carts: map<UserId, Cart>, userId: UserId, c: Cart, item: CartItem, quantity: int,
                            pricer: PriceInput -> Pricing)
    requires AddedLinesAsWritten(c.items, item, quantity).Ok?
    ensures var saved := Repriced(c, AddedLinesAsWritten(c.items, item, quantity).value, pricer);
      var load := CartDbActions.LoadCart(true, SavedCarts(carts, true, userId, saved), userId);
      && load == CartDbActions.CartLoad(true, Some(saved))
      && FindLine(load.data.value.items, item).Some?
  {
    AddedLinesAsWrittenSpec(c.items, item, quantity);
  }
}
