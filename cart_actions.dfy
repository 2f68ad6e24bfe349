/**
 * lib/actions/cart.actions.ts: checking a cart against current stock
 * (`validateCartStock`, errors versus warnings) and bringing it in line with
 * it (`syncCartWithLatestStock`, dropping and clamping lines). The product
 * query becomes a catalogue; `None` stands for a lookup that threw.
 */
module CartActions {
  import opened Base
  import opened CartTypes

  // ---------------------------------------------------------------------------
  // validateCartStock

  /** An error entry: the line cannot be bought at all. */
  datatype StockIssue = StockIssue(productId: ProductId, productName: string, slug: string, requested: int, available: int)

  /** A warning entry: the line can be bought in a smaller quantity. */
  datatype StockWarning = StockWarning(productId: ProductId, productName: string, oldQuantity: int, newQuantity: int)

  datatype CheckMessage =
    | OneOutOfStock(productName: string)   // "<name> is out of stock"
    | ManyOutOfStock(count: nat)           // "<n> items in your cart are out of stock"
    | OneLimited(productName: string)      // "<name> has limited stock"
    | ManyLimited(count: nat)              // "<n> items have limited stock"
    | AllAvailable                         // "All items are available"
    | CheckFailed                          // the error's own message

  datatype StockCheck = StockCheck(
    success: bool,
    hasErrors: bool,
    hasWarnings: bool,
    errors: seq<StockIssue>,
    warnings: seq<StockWarning>,
    message: CheckMessage)

  /** The line's product is gone or has nothing available. */
  predicate OutOfStock(c: Catalog, item: CartItem)
  {
    item.product !in c || c[item.product].availableStock == 0
  }

  /** The line's product has some stock, but less than the line asks. */
  predicate Short(c: Catalog, item: CartItem)
  {
    item.product in c && c[item.product].availableStock != 0 && c[item.product].availableStock < item.quantity
  }

  /** The error entry a line produces, if any; a missing product reports 0 available. */
  function IssueOf(c: Catalog, item: CartItem): seq<StockIssue>
  {
    if item.product !in c then [StockIssue(item.product, item.name, item.slug, item.quantity, 0)]
    else if c[item.product].availableStock == 0 then
      [StockIssue(item.product, c[item.product].name, c[item.product].slug, item.quantity, 0)]
    else []
  }

  /** The warning entry a line produces, if any, proposing the available quantity. */
  function WarningOf(c: Catalog, item: CartItem): seq<StockWarning>
  {
    if Short(c, item) then
      [StockWarning(item.product, c[item.product].name, item.quantity, c[item.product].availableStock)]
    else []
  }

  function Issues(c: Catalog, items: seq<CartItem>): seq<StockIssue>
    decreases |items|
  {
    if items == [] then [] else Issues(c, items[..|items| - 1]) + IssueOf(c, items[|items| - 1])
  }

  function Warnings(c: Catalog, items: seq<CartItem>): seq<StockWarning>
    decreases |items|
  {
    if items == [] then [] else Warnings(c, items[..|items| - 1]) + WarningOf(c, items[|items| - 1])
  }

  /** There is an error entry exactly when some line is out of stock. */
  lemma {:induction false} IssuesEmptyIff(c: Catalog, items: seq<CartItem>)
    ensures Issues(c, items) == [] <==> forall i :: 0 <= i < |items| ==> !OutOfStock(c, items[i])
    ensures |Issues(c, items)| <= |items|
    decreases |items|
  {
    if items != [] {
      var init := items[..|items| - 1];
      IssuesEmptyIff(c, init);
      assert forall i :: 0 <= i < |init| ==> init[i] == items[i];
    }
  }

  /** There is a warning entry exactly when some line is short. */
  lemma {:induction false} WarningsEmptyIff(c: Catalog, items: seq<CartItem>)
    ensures Warnings(c, items) == [] <==> forall i :: 0 <= i < |items| ==> !Short(c, items[i])
    ensures |Warnings(c, items)| <= |items|
    decreases |items|
  {
    if items != [] {
      var init := items[..|items| - 1];
      WarningsEmptyIff(c, init);
      assert forall i :: 0 <= i < |init| ==> init[i] == items[i];
    }
  }

  /** The loop over the lines, pushing into `errors` and `warnings`. */
  method CollectIssues(c: Catalog, items: seq<CartItem>) returns (errors: seq<StockIssue>, warnings: seq<StockWarning>)
    ensures errors == Issues(c, items) && warnings == Warnings(c, items)
  {
    errors, warnings := [], [];
    var i := 0;
    while i < |items|
      invariant 0 <= i <= |items|
      invariant errors == Issues(c, items[..i]) && warnings == Warnings(c, items[..i])
    {
      var item := items[i];
      assert items[..i + 1][..i] == items[..i];
      if item.product !in c {
        errors := errors + [StockIssue(item.product, item.name, item.slug, item.quantity, 0)];
      } else {
        var product := c[item.product];
        if product.availableStock == 0 {
          errors := errors + [StockIssue(item.product, product.name, product.slug, item.quantity, 0)];
        } else if product.availableStock < item.quantity {
          warnings := warnings + [StockWarning(item.product, product.name, item.quantity, product.availableStock)];
        }
      }
      i := i + 1;
    }
    assert items[..i] == items;
  }

  /**
   * `validateCartStock`: errors win over warnings (which are then dropped),
   * warnings still fail the check, and only a cart with neither succeeds.
   */
  method ValidateCartStock(catalog: Option<Catalog>, items: seq<CartItem>) returns (r: StockCheck)
    ensures catalog.None? ==> r == StockCheck(false, true, false, [], [], CheckFailed)
    ensures catalog.Some? ==>
      var c := catalog.value;
      && (r.hasErrors <==> exists i :: 0 <= i < |items| && OutOfStock(c, items[i]))
      && (r.hasErrors ==> r.errors == Issues(c, items) && r.warnings == [] && !r.hasWarnings)
      && (!r.hasErrors ==> r.errors == [] && r.warnings == Warnings(c, items))
      && (r.hasWarnings <==> !r.hasErrors && exists i :: 0 <= i < |items| && Short(c, items[i]))
      && (r.success <==> forall i :: 0 <= i < |items| ==> !OutOfStock(c, items[i]) && !Short(c, items[i]))
  {
    if catalog.None? {
      return StockCheck(false, true, false, [], [], CheckFailed);
    }
    var c := catalog.value;
    var errors, warnings := CollectIssues(c, items);
    IssuesEmptyIff(c, items);
    WarningsEmptyIff(c, items);
    if |errors| > 0 {
      var message := if |errors| == 1 then OneOutOfStock(errors[0].productName) else ManyOutOfStock(|errors|);
      return StockCheck(false, true, false, errors, [], message);
    }
    if |warnings| > 0 {
      var message := if |warnings| == 1 then OneLimited(warnings[0].productName) else ManyLimited(|warnings|);
      return StockCheck(false, false, true, [], warnings, message);
    }
    return StockCheck(true, false, false, [], [], AllAvailable);
  }

  // ---------------------------------------------------------------------------
  // syncCartWithLatestStock

  /** The line after the sync: dropped, or clamped to the available stock. */
  function SyncLine(c: Catalog, item: CartItem): seq<CartItem>
  {
    if OutOfStock(c, item) then []
    else
      var a := c[item.product].availableStock;
      [item.(countInStock := a, quantity := Min(item.quantity, a))]
  }

  /** `items.map(...).filter(...)` */
  function Synced(c: Catalog, items: seq<CartItem>): seq<CartItem>
    decreases |items|
  {
    if items == [] then [] else SyncLine(c, items[0]) + Synced(c, items[1..])
  }

  /** Number of lines the sync drops. */
  function Dropped(c: Catalog, items: seq<CartItem>): nat
    decreases |items|
  {
    if items == [] then 0 else (if OutOfStock(c, items[0]) then 1 else 0) + Dropped(c, items[1..])
  }

  datatype SyncResult = SyncResult(success: bool, items: seq<CartItem>, removedCount: int)

  function SyncCartWithLatestStock(catalog: Option<Catalog>, items: seq<CartItem>): SyncResult
  {
    match catalog
    case None => SyncResult(false, items, 0)
    case Some(c) =>
      var synced := Synced(c, items);
      SyncResult(true, synced, |items| - |synced|)
  }

  /** The sync works line by line and keeps the lines' order. */
  lemma {:induction false} SyncedAppend(c: Catalog, a: seq<CartItem>, b: seq<CartItem>)
    ensures Synced(c, a + b) == Synced(c, a) + Synced(c, b)
    decreases |a|
  {
    if a != [] {
      assert (a + b)[0] == a[0];
      assert (a + b)[1..] == a[1..] + b;
      SyncedAppend(c, a[1..], b);
    } else {
      assert a + b == b;
    }
  }

  /**
   * The sync keeps exactly the lines whose product exists with stock, so
   * `removedCount` counts the dropped lines; every kept line asks for at most
   * the available stock and records it as `countInStock`.
   */
  lemma {:induction false} SyncedShape(c: Catalog, items: seq<CartItem>)
    ensures |Synced(c, items)| == |items| - Dropped(c, items)
    ensures forall j :: 0 <= j < |Synced(c, items)| ==>
      var line := Synced(c, items)[j];
      && line.product in c
      && c[line.product].availableStock != 0
      && line.countInStock == c[line.product].availableStock
      && line.quantity <= c[line.product].availableStock
    decreases |items|
  {
    if items != [] {
      SyncedShape(c, items[1..]);
      var head := SyncLine(c, items[0]);
      var tail := Synced(c, items[1..]);
      assert Synced(c, items) == head + tail;
      forall j | 0 <= j < |Synced(c, items)|
        ensures var line := Synced(c, items)[j];
          line.product in c && c[line.product].availableStock != 0
          && line.countInStock == c[line.product].availableStock
          && line.quantity <= c[line.product].availableStock
      {
        if j >= |head| {
          assert Synced(c, items)[j] == tail[j - |head|];
        }
      }
    }
  }

  /** `removedCount == items.length - syncedItems.length`, the number of dropped lines. */
  lemma SyncRemovedCount(catalog: Option<Catalog>, items: seq<CartItem>)
    ensures var r := SyncCartWithLatestStock(catalog, items);
      && (catalog.None? ==> r == SyncResult(false, items, 0))
      && (catalog.Some? ==> r.success && r.removedCount == Dropped(catalog.value, items) && r.removedCount >= 0)
  {
    if catalog.Some? {
      SyncedShape(catalog.value, items);
    }
  }

  /** Syncing a synced cart changes nothing. */
  lemma {:induction false} SyncIdempotent(c: Catalog, items: seq<CartItem>)
    ensures Synced(c, Synced(c, items)) == Synced(c, items)
    decreases |items|
  {
    if items != [] {
      SyncIdempotent(c, items[1..]);
      var head := SyncLine(c, items[0]);
      SyncedAppend(c, head, Synced(c, items[1..]));
      if head != [] {
        assert head[1..] == [];
        assert Synced(c, head) == SyncLine(c, head[0]) + Synced(c, []);
      }
    }
  }

  /** After a sync, checking the cart finds neither errors nor warnings. */
  lemma SyncThenValidateClean(c: Catalog, items: seq<CartItem>)
    ensures Issues(c, Synced(c, items)) == []
    ensures Warnings(c, Synced(c, items)) == []
  {
    var s := Synced(c, items);
    SyncedShape(c, items);
    IssuesEmptyIff(c, s);
    WarningsEmptyIff(c, s);
  }
}
