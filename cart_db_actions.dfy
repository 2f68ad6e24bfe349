/**
 * lib/actions/cart-db.actions.ts: the stored carts (`getUserCartFromDB`,
 * `saveCartToDB`), the login-time merge of the guest cart into the stored
 * one (`mergeAndValidateCart`) and the stock review helper
 * (`validateCartStock`). The product lookups become a catalogue, `None`
 * standing for a database that threw; `calcDeliveryDateAndPrice` is a
 * parameter whose prices are carried, not checked.
 */
module CartDbActions {
  import opened Base
  import opened CartTypes

  // ---------------------------------------------------------------------------
  // An insertion-ordered map of lines, as a JavaScript `Map` keeps it

  function KeysOf<K>(key: CartItem -> K, s: seq<CartItem>): (r: seq<K>)
    ensures |r| == |s| && forall i :: 0 <= i < |s| ==> r[i] == key(s[i])
  {
    seq(|s|, i requires 0 <= i < |s| => key(s[i]))
  }

  predicate DistinctKeys<K(==)>(key: CartItem -> K, s: seq<CartItem>)
  {
    forall i, j :: 0 <= i < j < |s| ==> key(s[i]) != key(s[j])
  }

  /** `map.set(key(item), item)`: overwrite in place when the key is present, otherwise append. */
  function MapSet<K(==)>(entries: seq<CartItem>, key: CartItem -> K, item: CartItem): seq<CartItem>
    decreases |entries|
  {
    if entries == [] then [item]
    else if key(entries[0]) == key(item) then [item] + entries[1..]
    else [entries[0]] + MapSet(entries[1..], key, item)
  }

  /** `items.forEach(item => map.set(key(item), item))` */
  function MapSetAll<K(==)>(entries: seq<CartItem>, key: CartItem -> K, items: seq<CartItem>): seq<CartItem>
    decreases |items|
  {
    if items == [] then entries
    else MapSet(MapSetAll(entries, key, items[..|items| - 1]), key, items[|items| - 1])
  }

  /** DB lines first, then local lines over them; `Array.from(map.values())`. */
  function Merge<K(==)>(key: CartItem -> K, dbItems: seq<CartItem>, localItems: seq<CartItem>): seq<CartItem>
  {
    MapSetAll(MapSetAll([], key, dbItems), key, localItems)
  }

  /** The keys in order of first appearance. */
  function FirstOccurrences<K(==)>(ks: seq<K>): seq<K>
    decreases |ks|
  {
    if ks == [] then []
    else
      var f := FirstOccurrences(ks[..|ks| - 1]);
      if ks[|ks| - 1] in f then f else f + [ks[|ks| - 1]]
  }

  /** The last line of `items` under key `k`. */
  function LastWith<K(==)>(key: CartItem -> K, items: seq<CartItem>, k: K): Option<CartItem>
    decreases |items|
  {
    if items == [] then None
    else if key(items[|items| - 1]) == k then Some(items[|items| - 1])
    else LastWith(key, items[..|items| - 1], k)
  }

  /** One `set`: a present key keeps its position and takes the new line; a new key goes last. */
  lemma {:induction false} MapSetFacts<K>(entries: seq<CartItem>, key: CartItem -> K, item: CartItem)
    requires DistinctKeys(key, entries)
    ensures key(item) in KeysOf(key, entries) ==>
      var r := MapSet(entries, key, item);
      |r| == |entries| && forall j :: 0 <= j < |r| ==> r[j] == (if key(entries[j]) == key(item) then item else entries[j])
    ensures key(item) !in KeysOf(key, entries) ==> MapSet(entries, key, item) == entries + [item]
    decreases |entries|
  {
    if entries != [] {
      var tail := entries[1..];
      assert forall j :: 0 <= j < |tail| ==> tail[j] == entries[j + 1];
      assert DistinctKeys(key, tail);
      MapSetFacts(tail, key, item);
      assert key(item) in KeysOf(key, entries) <==> key(entries[0]) == key(item) || key(item) in KeysOf(key, tail);
    }
  }

  lemma KeysOfSnoc<K>(key: CartItem -> K, s: seq<CartItem>, x: CartItem)
    ensures KeysOf(key, s + [x]) == KeysOf(key, s) + [key(x)]
  {
    assert forall i :: 0 <= i < |s| ==> (s + [x])[i] == s[i];
  }

  /**
   * Setting every line of `items` into an empty map leaves one line per key,
   * keys in order of first appearance, each holding the last line set under
   * its key.
   */
  lemma {:induction false} MapSetAllSpec<K>(key: CartItem -> K, items: seq<CartItem>)
    ensures var r := MapSetAll([], key, items);
      && DistinctKeys(key, r)
      && KeysOf(key, r) == FirstOccurrences(KeysOf(key, items))
      && forall j :: 0 <= j < |r| ==> LastWith(key, items, key(r[j])) == Some(r[j])
    decreases |items|
  {
    if items != [] {
      var init, x := items[..|items| - 1], items[|items| - 1];
      assert items == init + [x];
      MapSetAllSpec(key, init);
      var r0 := MapSetAll([], key, init);
      assert MapSetAll([], key, items) == MapSet(r0, key, x);
      KeysOfSnoc(key, init, x);
      assert KeysOf(key, items)[..|items| - 1] == KeysOf(key, init);
      if key(x) in KeysOf(key, r0) {
        MapSetStepPresent(key, init, x, r0);
      } else {
        MapSetStepAbsent(key, init, x, r0);
      }
    }
  }

  /** The step of MapSetAllSpec that overwrites a key already present. */
  lemma MapSetStepPresent<K>(key: CartItem -> K, init: seq<CartItem>, x: CartItem, r0: seq<CartItem>)
    requires DistinctKeys(key, r0)
    requires forall j :: 0 <= j < |r0| ==> LastWith(key, init, key(r0[j])) == Some(r0[j])
    requires key(x) in KeysOf(key, r0)
    ensures var r := MapSet(r0, key, x);
      && DistinctKeys(key, r)
      && KeysOf(key, r) == KeysOf(key, r0)
      && forall j :: 0 <= j < |r| ==> LastWith(key, init + [x], key(r[j])) == Some(r[j])
  {
    var items := init + [x];
    assert items[..|items| - 1] == init;
    MapSetFacts(r0, key, x);
    var r := MapSet(r0, key, x);
    assert KeysOf(key, r) == KeysOf(key, r0);
    forall j | 0 <= j < |r| ensures LastWith(key, items, key(r[j])) == Some(r[j]) {
      if key(r0[j]) != key(x) {
        assert r[j] == r0[j];
      }
    }
  }

  /** The step of MapSetAllSpec that appends a new key. */
  lemma MapSetStepAbsent<K>(key: CartItem -> K, init: seq<CartItem>, x: CartItem, r0: seq<CartItem>)
    requires DistinctKeys(key, r0)
    requires forall j :: 0 <= j < |r0| ==> LastWith(key, init, key(r0[j])) == Some(r0[j])
    requires key(x) !in KeysOf(key, r0)
    ensures var r := MapSet(r0, key, x);
      && DistinctKeys(key, r)
      && KeysOf(key, r) == KeysOf(key, r0) + [key(x)]
      && forall j :: 0 <= j < |r| ==> LastWith(key, init + [x], key(r[j])) == Some(r[j])
  {
    var items := init + [x];
    assert items[..|items| - 1] == init;
    MapSetFacts(r0, key, x);
    var r := MapSet(r0, key, x);
    KeysOfSnoc(key, r0, x);
    forall j | 0 <= j < |r| ensures LastWith(key, items, key(r[j])) == Some(r[j]) {
      if j < |r0| {
        assert r[j] == r0[j];
        assert key(r0[j]) in KeysOf(key, r0);
      }
    }
    forall i, j | 0 <= i < j < |r| ensures key(r[i]) != key(r[j]) {
      if j == |r0| {
        assert key(r0[i]) in KeysOf(key, r0);
      } else {
        assert r[i] == r0[i] && r[j] == r0[j];
      }
    }
  }

  lemma {:induction false} MapSetAllAppend<K>(entries: seq<CartItem>, key: CartItem -> K, a: seq<CartItem>, b: seq<CartItem>)
    ensures MapSetAll(entries, key, a + b) == MapSetAll(MapSetAll(entries, key, a), key, b)
    decreases |b|
  {
    if b == [] {
      assert a + b == a;
    } else {
      assert (a + b)[..|a + b| - 1] == a + b[..|b| - 1];
      assert (a + b)[|a + b| - 1] == b[|b| - 1];
      MapSetAllAppend(entries, key, a, b[..|b| - 1]);
    }
  }

  lemma {:induction false} LastWithAppend<K>(key: CartItem -> K, a: seq<CartItem>, b: seq<CartItem>, k: K)
    ensures LastWith(key, a + b, k) == if LastWith(key, b, k).Some? then LastWith(key, b, k) else LastWith(key, a, k)
    decreases |b|
  {
    if b == [] {
      assert a + b == a;
    } else {
      assert (a + b)[..|a + b| - 1] == a + b[..|b| - 1];
      assert (a + b)[|a + b| - 1] == b[|b| - 1];
      LastWithAppend(key, a, b[..|b| - 1], k);
    }
  }

  lemma {:induction false} FirstOccurrencesElems<K>(ks: seq<K>)
    ensures forall k :: k in FirstOccurrences(ks) <==> k in ks
    decreases |ks|
  {
    if ks != [] {
      FirstOccurrencesElems(ks[..|ks| - 1]);
      assert ks == ks[..|ks| - 1] + [ks[|ks| - 1]];
    }
  }

  /**
   * The merge keeps one line per key, in the position where the key was
   * first inserted (DB lines before new local ones), loses no key, and under
   * each key holds the last local line if there is one, else the last DB line.
   */
  lemma MergeSpec<K>(key: CartItem -> K, dbItems: seq<CartItem>, localItems: seq<CartItem>)
    ensures var r := Merge(key, dbItems, localItems);
      && DistinctKeys(key, r)
      && KeysOf(key, r) == FirstOccurrences(KeysOf(key, dbItems + localItems))
      && (forall i :: 0 <= i < |dbItems + localItems| ==> key((dbItems + localItems)[i]) in KeysOf(key, r))
      && (forall j :: 0 <= j < |r| ==>
            if LastWith(key, localItems, key(r[j])).Some? then LastWith(key, localItems, key(r[j])) == Some(r[j])
            else LastWith(key, dbItems, key(r[j])) == Some(r[j]))
  {
    var all := dbItems + localItems;
    MapSetAllAppend([], key, dbItems, localItems);
    MapSetAllSpec(key, all);
    FirstOccurrencesElems(KeysOf(key, all));
    var r := Merge(key, dbItems, localItems);
    assert r == MapSetAll([], key, all);
    forall i | 0 <= i < |all| ensures key(all[i]) in KeysOf(key, r) {
      assert key(all[i]) == KeysOf(key, all)[i];
      assert key(all[i]) in FirstOccurrences(KeysOf(key, all));
    }
    forall j | 0 <= j < |r|
      ensures if LastWith(key, localItems, key(r[j])).Some? then LastWith(key, localItems, key(r[j])) == Some(r[j])
              else LastWith(key, dbItems, key(r[j])) == Some(r[j])
    {
      LastWithAppend(key, dbItems, localItems, key(r[j]));
    }
  }

  // ---------------------------------------------------------------------------
  // The merge key

  /** The key as written: `${product}-${color}-${size}`. */
  function StringKey(item: CartItem): string
  {
    item.product + "-" + item.color + "-" + item.size
  }

  /** The key the store's line identity calls for: the (product, color, size) triple. */
  function LineKey(item: CartItem): (string, string, string)
  {
    (item.product, item.color, item.size)
  }

  /**
   * The joined string is not a faithful key: a color or size containing "-"
   * makes two different lines share one key, and the merge then keeps only
   * one of them. Keyed by the triple, both survive.
   */
  lemma StringKeyMergesDistinctLines()
    ensures var a := CartItem("a1", "p1", "Tee", "tee", "shirts", "tee.png", 10.0, "navy-blue", "M", 1, 5);
      var b := CartItem("b1", "p1", "Tee", "tee", "shirts", "tee.png", 10.0, "navy", "blue-M", 2, 5);
      && !SameLine(a, b)
      && StringKey(a) == StringKey(b)
      && Merge(StringKey, [a], [b]) == [b]
      && Merge(LineKey, [a], [b]) == [a, b]
  {
    var a := CartItem("a1", "p1", "Tee", "tee", "shirts", "tee.png", 10.0, "navy-blue", "M", 1, 5);
    var b := CartItem("b1", "p1", "Tee", "tee", "shirts", "tee.png", 10.0, "navy", "blue-M", 2, 5);
    assert [a][..0] == [] && [b][..0] == [];
    assert StringKey(a) == StringKey(b);
    assert MapSetAll([], StringKey, [a]) == [a];
    assert MapSetAll([], LineKey, [a]) == [a];
    assert LineKey(a) != LineKey(b);
    assert MapSet([a], LineKey, b) == [a] + MapSet([], LineKey, b);
  }

  /** `map.set` depends on the key only through which entries share the item's key. */
  lemma {:induction false} MapSetSameKeys<K1, K2>(entries: seq<CartItem>, k1: CartItem -> K1, k2: CartItem -> K2, item: CartItem)
    requires forall y :: y in entries ==> (k1(y) == k1(item) <==> k2(y) == k2(item))
    ensures MapSet(entries, k1, item) == MapSet(entries, k2, item)
    decreases |entries|
  {
    if entries != [] {
      assert forall y :: y in entries[1..] ==> y in entries;
      MapSetSameKeys(entries[1..], k1, k2, item);
    }
  }

  /** Every entry `map.set` leaves was there before or is the item set. */
  lemma {:induction false} MapSetFrom<K>(entries: seq<CartItem>, key: CartItem -> K, item: CartItem)
    ensures forall y :: y in MapSet(entries, key, item) ==> y in entries || y == item
    decreases |entries|
  {
    if entries != [] {
      MapSetFrom(entries[1..], key, item);
      assert forall y :: y in entries[1..] ==> y in entries;
    }
  }

  /** Two keys that tell apart the same lines of `pool` build the same map from them. */
  lemma {:induction false} MapSetAllSameKeys<K1, K2>(entries: seq<CartItem>, k1: CartItem -> K1, k2: CartItem -> K2,
                                                      items: seq<CartItem>, pool: set<CartItem>)
    requires forall y :: y in entries ==> y in pool
    requires forall y :: y in items ==> y in pool
    requires forall y, z :: y in pool && z in pool ==> (k1(y) == k1(z) <==> k2(y) == k2(z))
    ensures MapSetAll(entries, k1, items) == MapSetAll(entries, k2, items)
    ensures forall y :: y in MapSetAll(entries, k1, items) ==> y in pool
    decreases |items|
  {
    if items != [] {
      var init, x := items[..|items| - 1], items[|items| - 1];
      assert forall y :: y in init ==> y in items;
      MapSetAllSameKeys(entries, k1, k2, init, pool);
      var m := MapSetAll(entries, k1, init);
      MapSetSameKeys(m, k1, k2, x);
      MapSetFrom(m, k1, x);
    }
  }

  /**
   * Where the joined string tells the lines of both carts apart, the merge
   * as written is the merge by line identity.
   */
  lemma StringKeyMergeAgrees(dbItems: seq<CartItem>, localItems: seq<CartItem>)
    requires forall x, y :: x in dbItems + localItems && y in dbItems + localItems && StringKey(x) == StringKey(y) ==> SameLine(x, y)
    ensures Merge(StringKey, dbItems, localItems) == Merge(LineKey, dbItems, localItems)
  {
    var pool := set y | y in dbItems + localItems;
    assert forall y, z :: y in pool && z in pool ==> (StringKey(y) == StringKey(z) <==> LineKey(y) == LineKey(z));
    MapSetAllSameKeys([], StringKey, LineKey, dbItems, pool);
    MapSetAllSameKeys(MapSetAll([], StringKey, dbItems), StringKey, LineKey, localItems, pool);
  }

  /**
   * Keyed by the triple, the merge gives one line per (product, color, size),
   * keeps every line identity of either cart, and lets the local cart win.
   */
  lemma MergeByLine(dbItems: seq<CartItem>, localItems: seq<CartItem>)
    ensures var r := Merge(LineKey, dbItems, localItems);
      && (forall i, j :: 0 <= i < j < |r| ==> !SameLine(r[i], r[j]))
      && (forall x :: x in dbItems + localItems ==> exists j :: 0 <= j < |r| && SameLine(r[j], x))
      && (forall j, x :: 0 <= j < |r| && x in localItems && SameLine(x, r[j]) ==> r[j] in localItems)
  {
    var r := Merge(LineKey, dbItems, localItems);
    MergeSpec(LineKey, dbItems, localItems);
    var all := dbItems + localItems;
    forall x | x in all ensures exists j :: 0 <= j < |r| && SameLine(r[j], x) {
      var i :| 0 <= i < |all| && all[i] == x;
      assert LineKey(x) in KeysOf(LineKey, r);
      var j :| 0 <= j < |r| && KeysOf(LineKey, r)[j] == LineKey(x);
      assert SameLine(r[j], x);
    }
    forall j, x | 0 <= j < |r| && x in localItems && SameLine(x, r[j]) ensures r[j] in localItems {
      LastWithIn(LineKey, localItems, LineKey(r[j]), x);
    }
  }

  /** A key some line carries has a last line, and that line is one of them. */
  lemma {:induction false} LastWithIn<K>(key: CartItem -> K, items: seq<CartItem>, k: K, x: CartItem)
    requires x in items && key(x) == k
    ensures LastWith(key, items, k).Some? && LastWith(key, items, k).value in items
    decreases |items|
  {
    var init := items[..|items| - 1];
    if key(items[|items| - 1]) != k {
      assert x in init by {
        assert items == init + [items[|items| - 1]];
      }
      LastWithIn(key, init, k, x);
    }
  }

  // ---------------------------------------------------------------------------
  // Validating the merged lines

  datatype MergeWarning =
    | NoLongerExists(name: string)   // "... no longer exists and was removed from cart"
    | NoLongerOffered(name: string)  // "... is no longer available and was removed"
    | SoldOut(name: string)          // "... is out of stock and was removed"
    | QuantityReduced(name: string, color: string, size: string, from: int, to: int)

  datatype Checked<W> = Checked(items: seq<CartItem>, warnings: seq<W>)

  /** The line can stay as it is: its product exists, is published, has stock, and covers it. */
  predicate Fits(c: Catalog, item: CartItem)
  {
    && item.product in c
    && c[item.product].isPublished
    && c[item.product].availableStock != 0
    && item.quantity <= c[item.product].availableStock
  }

  function ValidateLine(c: Catalog, item: CartItem): Checked<MergeWarning>
  {
    if item.product !in c then Checked([], [NoLongerExists(item.name)])
    else
      var p := c[item.product];
      if !p.isPublished then Checked([], [NoLongerOffered(item.name)])
      else if p.availableStock == 0 then Checked([], [SoldOut(item.name)])
      else
        var q := if item.quantity > p.availableStock then p.availableStock else item.quantity;
        Checked([item.(price := p.price, countInStock := p.availableStock, quantity := q)],
                if item.quantity > p.availableStock
                then [QuantityReduced(item.name, item.color, item.size, item.quantity, p.availableStock)]
                else [])
  }

  function ValidateLines(c: Catalog, items: seq<CartItem>): Checked<MergeWarning>
    decreases |items|
  {
    if items == [] then Checked([], [])
    else
      var before := ValidateLines(c, items[..|items| - 1]);
      var step := ValidateLine(c, items[|items| - 1]);
      Checked(before.items + step.items, before.warnings + step.warnings)
  }

  /**
   * Validation warns exactly when some merged line does not fit; every line
   * it keeps fits, carries the product's current price and available stock,
   * and asks for no more than that stock.
   */
  lemma {:induction false} ValidateLinesSpec(c: Catalog, items: seq<CartItem>)
    ensures var v := ValidateLines(c, items);
      && (v.warnings == [] <==> forall i :: 0 <= i < |items| ==> Fits(c, items[i]))
      && |v.items| <= |items|
      && forall j :: 0 <= j < |v.items| ==>
           && Fits(c, v.items[j])
           && v.items[j].price == c[v.items[j].product].price
           && v.items[j].countInStock == c[v.items[j].product].availableStock
    decreases |items|
  {
    if items != [] {
      var init := items[..|items| - 1];
      ValidateLinesSpec(c, init);
      assert forall i :: 0 <= i < |init| ==> init[i] == items[i];
      var before := ValidateLines(c, init);
      var step := ValidateLine(c, items[|items| - 1]);
      var v := ValidateLines(c, items);
      forall j | 0 <= j < |v.items|
        ensures Fits(c, v.items[j]) && v.items[j].price == c[v.items[j].product].price
             && v.items[j].countInStock == c[v.items[j].product].availableStock
      {
        if j >= |before.items| {
          assert v.items[j] == step.items[j - |before.items|];
        } else {
          assert v.items[j] == before.items[j];
        }
      }
    }
  }

  /** Validating the kept lines again keeps them all, unchanged, without a warning. */
  lemma {:induction false} ValidateLinesIdempotent(c: Catalog, items: seq<CartItem>)
    ensures var kept := ValidateLines(c, items).items;
      ValidateLines(c, kept) == Checked(kept, [])
  {
    var kept := ValidateLines(c, items).items;
    ValidateLinesSpec(c, items);
    FittingLinesStay(c, kept);
  }

  lemma {:induction false} FittingLinesStay(c: Catalog, items: seq<CartItem>)
    requires forall j :: 0 <= j < |items| ==>
      && Fits(c, items[j])
      && items[j].price == c[items[j].product].price
      && items[j].countInStock == c[items[j].product].availableStock
    ensures ValidateLines(c, items) == Checked(items, [])
    decreases |items|
  {
    if items != [] {
      var init := items[..|items| - 1];
      FittingLinesStay(c, init);
      var x := items[|items| - 1];
      assert ValidateLine(c, x) == Checked([x], []);
      assert init + [x] == items;
    }
  }

  method ValidateMerged(c: Catalog, mergedItems: seq<CartItem>) returns (validatedItems: seq<CartItem>, warnings: seq<MergeWarning>)
    ensures Checked(validatedItems, warnings) == ValidateLines(c, mergedItems)
  {
    validatedItems, warnings := [], [];
    var i := 0;
    while i < |mergedItems|
      invariant 0 <= i <= |mergedItems|
      invariant Checked(validatedItems, warnings) == ValidateLines(c, mergedItems[..i])
    {
      var item := mergedItems[i];
      assert mergedItems[..i + 1][..i] == mergedItems[..i];
      if item.product !in c {
        warnings := warnings + [NoLongerExists(item.name)];
      } else {
        var product := c[item.product];
        if !product.isPublished {
          warnings := warnings + [NoLongerOffered(item.name)];
        } else if product.availableStock == 0 {
          warnings := warnings + [SoldOut(item.name)];
        } else {
          var adjustedQuantity := item.quantity;
          if item.quantity > product.availableStock {
            adjustedQuantity := product.availableStock;
            warnings := warnings + [QuantityReduced(item.name, item.color, item.size, item.quantity, adjustedQuantity)];
          }
          validatedItems := validatedItems + [item.(price := product.price, countInStock := product.availableStock, quantity := adjustedQuantity)];
        }
      }
      i := i + 1;
    }
    assert mergedItems[..i] == mergedItems;
  }

  // ---------------------------------------------------------------------------
  // Field precedence

  /** JavaScript truthiness of an optional string: present and non-empty. */
  predicate Truthy(s: Option<string>)
  {
    s.Some? && s.value != ""
  }

  /** `localCart.shippingAddress || dbCart?.shippingAddress` (an address object is always truthy). */
  function MergedAddress(localCart: Cart, dbCart: Option<Cart>): Option<ShippingAddress>
  {
    if localCart.shippingAddress.Some? then localCart.shippingAddress
    else if dbCart.Some? then dbCart.value.shippingAddress else None
  }

  /** `localCart.paymentMethod || dbCart?.paymentMethod` */
  function MergedPaymentMethod(localCart: Cart, dbCart: Option<Cart>): Option<string>
  {
    if Truthy(localCart.paymentMethod) then localCart.paymentMethod
    else if dbCart.Some? then dbCart.value.paymentMethod else None
  }

  /** `localCart.deliveryDateIndex ?? dbCart?.deliveryDateIndex` */
  function MergedDeliveryDateIndex(localCart: Cart, dbCart: Option<Cart>): Option<int>
  {
    if localCart.deliveryDateIndex.Some? then localCart.deliveryDateIndex
    else if dbCart.Some? then dbCart.value.deliveryDateIndex else None
  }

  /**
   * `||` and `??` part on falsy values: an empty local payment method gives
   * way to the stored one, while a local delivery index of 0 is kept.
   */
  lemma PrecedenceOnFalsyValues(localCart: Cart, dbCart: Cart)
    requires localCart.paymentMethod == Some("") && localCart.deliveryDateIndex == Some(0)
    ensures MergedPaymentMethod(localCart, Some(dbCart)) == dbCart.paymentMethod
    ensures MergedDeliveryDateIndex(localCart, Some(dbCart)) == Some(0)
  {
  }

  /** The local field wins whenever it is set (and, for the payment method, non-empty); otherwise the stored one, if any. */
  lemma PrecedenceLocalWins(localCart: Cart, dbCart: Option<Cart>)
    ensures localCart.shippingAddress.Some? ==> MergedAddress(localCart, dbCart) == localCart.shippingAddress
    ensures Truthy(localCart.paymentMethod) ==> MergedPaymentMethod(localCart, dbCart) == localCart.paymentMethod
    ensures localCart.deliveryDateIndex.Some? ==> MergedDeliveryDateIndex(localCart, dbCart) == localCart.deliveryDateIndex
    ensures dbCart.None? ==>
      && (MergedAddress(localCart, dbCart).Some? <==> localCart.shippingAddress.Some?)
      && (MergedPaymentMethod(localCart, dbCart).Some? <==> Truthy(localCart.paymentMethod))
      && MergedDeliveryDateIndex(localCart, dbCart) == localCart.deliveryDateIndex
  {
  }

  /**
   * STEP 3: the validated lines with the merged checkout fields, then the
   * computed prices and delivery index spread over them.
   */
  function FinalCart(validatedItems: seq<CartItem>, localCart: Cart, dbCart: Option<Cart>, pricer: PriceInput -> Pricing): Cart
  {
    var draft := Cart(validatedItems, 0.0, None, None, 0.0,
                      MergedAddress(localCart, dbCart),
                      MergedPaymentMethod(localCart, dbCart),
                      MergedDeliveryDateIndex(localCart, dbCart));
    WithPricing(draft, pricer(PriceInput(validatedItems, draft.shippingAddress, draft.deliveryDateIndex)))
  }

  function DbItems(dbCart: Option<Cart>): seq<CartItem>
  {
    if dbCart.Some? then dbCart.value.items else []
  }

  // ---------------------------------------------------------------------------
  // The cart collection

  /** The result of `getUserCartFromDB`; `data` is `null` when there is no cart or the read failed. */
  datatype CartLoad = CartLoad(success: bool, data: Option<Cart>)

  function LoadCart(reachable: bool, carts: map<UserId, Cart>, userId: UserId): (r: CartLoad)
    ensures r.data.Some? <==> reachable && userId in carts
    ensures r.success <==> reachable
    ensures r.data.Some? ==> r.data.value == carts[userId]
  {
    if !reachable then CartLoad(false, None)
    else if userId !in carts then CartLoad(true, None)
    else CartLoad(true, Some(carts[userId]))
  }

  /**
   * Storing a user's cart makes the next load return it, deleting it makes
   * the next load find none, and neither touches another user's cart.
   */
  lemma StoreDeleteLoad(carts: map<UserId, Cart>, userId: UserId, cart: Cart, other: UserId)
    ensures LoadCart(true, carts[userId := cart], userId) == CartLoad(true, Some(cart))
    ensures LoadCart(true, carts - {userId}, userId) == CartLoad(true, None)
    ensures other != userId ==> LoadCart(true, carts[userId := cart], other) == LoadCart(true, carts, other)
    ensures other != userId ==> LoadCart(true, carts - {userId}, other) == LoadCart(true, carts, other)
  {
  }

  class CartDb {
    var carts: map<UserId, Cart>
    /** Whether the database answers; when it does not, every call reports failure. */
    var reachable: bool

    constructor(carts: map<UserId, Cart>, reachable: bool)
      ensures this.carts == carts && this.reachable == reachable
    {
      this.carts := carts;
      this.reachable := reachable;
    }

    /** `getUserCartFromDB` */
    function GetUserCartFromDB(userId: UserId): CartLoad
      reads this
    {
      LoadCart(reachable, carts, userId)
    }

    /** `saveCartToDB`: an upsert under the user's id; a failing database is reported, not thrown. */
    method SaveCartToDB(userId: UserId, cart: Cart) returns (ok: bool)
      modifies this
      ensures ok == old(reachable) && reachable == old(reachable)
      ensures carts == if ok then old(carts)[userId := cart] else old(carts)
    {
      ok := reachable;
      if ok {
        carts := carts[userId := cart];
      }
    }

    /** `deleteUserCart`: remove the user's cart, if any; a failing database is reported. */
    method DeleteUserCart(userId: UserId) returns (ok: bool)
      modifies this
      ensures ok == old(reachable) && reachable == old(reachable)
      ensures carts == if ok then old(carts) - {userId} else old(carts)
    {
      ok := reachable;
      if ok {
        carts := carts - {userId};
      }
    }
  }

  // ---------------------------------------------------------------------------
  // mergeAndValidateCart

  datatype MergeOutcome = MergeOutcome(success: bool, data: Option<Cart>, warnings: seq<MergeWarning>, hasChanges: bool)

  /** STEP 1 as the loops over the two carts. */
  method MergeItems(dbCart: Option<Cart>, localItems: seq<CartItem>) returns (mergedItems: seq<CartItem>)
    ensures mergedItems == Merge(StringKey, DbItems(dbCart), localItems)
  {
    var dbItems := DbItems(dbCart);
    var itemMap: seq<CartItem> := [];
    var i := 0;
    while i < |dbItems|
      invariant 0 <= i <= |dbItems|
      invariant itemMap == MapSetAll([], StringKey, dbItems[..i])
    {
      assert dbItems[..i + 1][..i] == dbItems[..i];
      itemMap := MapSet(itemMap, StringKey, dbItems[i]);
      i := i + 1;
    }
    assert dbItems[..i] == dbItems;
    var fromDb := itemMap;
    var k := 0;
    while k < |localItems|
      invariant 0 <= k <= |localItems|
      invariant itemMap == MapSetAll(fromDb, StringKey, localItems[..k])
    {
      assert localItems[..k + 1][..k] == localItems[..k];
      itemMap := MapSet(itemMap, StringKey, localItems[k]);
      k := k + 1;
    }
    assert localItems[..k] == localItems;
    mergedItems := itemMap;
  }

  /**
   * `mergeAndValidateCart`: merge (local wins), validate and clamp against
   * the catalogue, take the checkout fields by precedence, price the result
   * and save it for the user; `hasChanges` is whether any warning was raised.
   */
  method MergeAndValidateCart(db: CartDb, userId: UserId, dbCart: Option<Cart>, localCart: Cart,
                              catalog: Option<Catalog>, pricer: PriceInput -> Pricing)
    returns (r: MergeOutcome)
    modifies db
    ensures db.reachable == old(db.reachable)
    ensures catalog.None? ==> r == MergeOutcome(false, None, [], false) && db.carts == old(db.carts)
    ensures catalog.Some? ==>
      var v := ValidateLines(catalog.value, Merge(StringKey, DbItems(dbCart), localCart.items));
      var final := FinalCart(v.items, localCart, dbCart, pricer);
      && r == MergeOutcome(true, Some(final), v.warnings, |v.warnings| > 0)
      && db.carts == if old(db.reachable) then old(db.carts)[userId := final] else old(db.carts)
  {
    if catalog.None? {
      return MergeOutcome(false, None, [], false);
    }
    var mergedItems := MergeItems(dbCart, localCart.items);
    var validatedItems, warnings := ValidateMerged(catalog.value, mergedItems);
    var finalCart := Cart(validatedItems, 0.0, None, None, 0.0,
                          MergedAddress(localCart, dbCart),
                          MergedPaymentMethod(localCart, dbCart),
                          MergedDeliveryDateIndex(localCart, dbCart));
    var priceData := pricer(PriceInput(validatedItems, finalCart.shippingAddress, finalCart.deliveryDateIndex));
    finalCart := WithPricing(finalCart, priceData);
    var _ := db.SaveCartToDB(userId, finalCart);
    r := MergeOutcome(true, Some(finalCart), warnings, |warnings| > 0);
  }

  /**
   * `hasChanges` holds exactly when some merged line did not fit, and the
   * merged cart it reports has lines that all fit; before validation the
   * merged lines have one line per key as written.
   */
  lemma MergeOutcomeSpec(c: Catalog, dbCart: Option<Cart>, localCart: Cart, pricer: PriceInput -> Pricing)
    ensures var merged := Merge(StringKey, DbItems(dbCart), localCart.items);
      var v := ValidateLines(c, merged);
      var final := FinalCart(v.items, localCart, dbCart, pricer);
      && DistinctKeys(StringKey, merged)
      && (|v.warnings| > 0 <==> exists i :: 0 <= i < |merged| && !Fits(c, merged[i]))
      && final.items == v.items
      && (forall j :: 0 <= j < |final.items| ==> Fits(c, final.items[j]))
  {
    var merged := Merge(StringKey, DbItems(dbCart), localCart.items);
    MergeSpec(StringKey, DbItems(dbCart), localCart.items);
    ValidateLinesSpec(c, merged);
  }

  // ---------------------------------------------------------------------------
  // validateCartStock (helper): warn but do not clamp

  datatype StockNote =
    | NotOffered(name: string)                  // "... is no longer available"
    | NoStock(name: string)                     // "... is out of stock"
    | OnlyAvailable(available: int, name: string)
    | ReviewFailed                              // "Failed to validate cart stock"

  datatype StockReview = StockReview(success: bool, validatedItems: seq<CartItem>, warnings: seq<StockNote>, hasIssues: bool)

  function ReviewLine(c: Catalog, item: CartItem): Checked<StockNote>
  {
    if item.product !in c || !c[item.product].isPublished then Checked([], [NotOffered(item.name)])
    else
      var p := c[item.product];
      if p.availableStock == 0 then Checked([], [NoStock(item.name)])
      else
        Checked([item.(price := p.price, countInStock := p.availableStock)],
                if item.quantity > p.availableStock then [OnlyAvailable(p.availableStock, item.name)] else [])
  }

  function ReviewLines(c: Catalog, items: seq<CartItem>): Checked<StockNote>
    decreases |items|
  {
    if items == [] then Checked([], [])
    else
      var before := ReviewLines(c, items[..|items| - 1]);
      var step := ReviewLine(c, items[|items| - 1]);
      Checked(before.items + step.items, before.warnings + step.warnings)
  }

  /**
   * The review warns exactly when some line does not fit; it drops the lines
   * whose product is gone, unpublished or sold out, and the lines it keeps
   * carry the current price and stock but their own quantity.
   */
  lemma {:induction false} ReviewLinesSpec(c: Catalog, items: seq<CartItem>)
    ensures var v := ReviewLines(c, items);
      && (v.warnings == [] <==> forall i :: 0 <= i < |items| ==> Fits(c, items[i]))
      && |v.items| <= |items|
      && forall j :: 0 <= j < |v.items| ==>
           && v.items[j].product in c
           && c[v.items[j].product].isPublished
           && c[v.items[j].product].availableStock != 0
           && v.items[j].price == c[v.items[j].product].price
           && v.items[j].countInStock == c[v.items[j].product].availableStock
    decreases |items|
  {
    if items != [] {
      var init := items[..|items| - 1];
      ReviewLinesSpec(c, init);
      assert forall i :: 0 <= i < |init| ==> init[i] == items[i];
      var before := ReviewLines(c, init);
      var step := ReviewLine(c, items[|items| - 1]);
      var v := ReviewLines(c, items);
      forall j | 0 <= j < |v.items|
        ensures v.items[j].product in c && c[v.items[j].product].isPublished
             && c[v.items[j].product].availableStock != 0
             && v.items[j].price == c[v.items[j].product].price
             && v.items[j].countInStock == c[v.items[j].product].availableStock
      {
        if j >= |before.items| {
          assert v.items[j] == step.items[j - |before.items|];
        } else {
          assert v.items[j] == before.items[j];
        }
      }
    }
  }

  /**
   * The two validations agree on which lines stay; the merge clamps an
   * oversized line and the review keeps its quantity, warning in both.
   */
  lemma ClampVersusWarn()
    ensures var c := map["p1" := CatalogProduct("Tee", "tee", 12.0, true, 3, 3)];
      var line := CartItem("a1", "p1", "Tee", "tee", "shirts", "tee.png", 10.0, "navy", "M", 5, 9);
      && ValidateLines(c, [line]) == Checked([line.(price := 12.0, countInStock := 3, quantity := 3)],
                                             [QuantityReduced("Tee", "navy", "M", 5, 3)])
      && ReviewLines(c, [line]) == Checked([line.(price := 12.0, countInStock := 3)], [OnlyAvailable(3, "Tee")])
  {
    var line := CartItem("a1", "p1", "Tee", "tee", "shirts", "tee.png", 10.0, "navy", "M", 5, 9);
    assert [line][..0] == [];
  }

  method ValidateCartStock(catalog: Option<Catalog>, items: seq<CartItem>) returns (r: StockReview)
    ensures catalog.None? ==> r == StockReview(false, [], [ReviewFailed], true)
    ensures catalog.Some? ==>
      && Checked(r.validatedItems, r.warnings) == ReviewLines(catalog.value, items)
      && (r.success <==> forall i :: 0 <= i < |items| ==> Fits(catalog.value, items[i]))
      && r.hasIssues == !r.success
  {
    if catalog.None? {
      return StockReview(false, [], [ReviewFailed], true);
    }
    var c := catalog.value;
    var warnings: seq<StockNote> := [];
    var validatedItems: seq<CartItem> := [];
    var i := 0;
    while i < |items|
      invariant 0 <= i <= |items|
      invariant Checked(validatedItems, warnings) == ReviewLines(c, items[..i])
    {
      var item := items[i];
      assert items[..i + 1][..i] == items[..i];
      if item.product !in c || !c[item.product].isPublished {
        warnings := warnings + [NotOffered(item.name)];
      } else {
        var product := c[item.product];
        if product.availableStock == 0 {
          warnings := warnings + [NoStock(item.name)];
        } else {
          if item.quantity > product.availableStock {
            warnings := warnings + [OnlyAvailable(product.availableStock, item.name)];
          }
          validatedItems := validatedItems + [item.(price := product.price, countInStock := product.availableStock)];
        }
      }
      i := i + 1;
    }
    assert items[..i] == items;
    ReviewLinesSpec(c, items);
    r := StockReview(|warnings| == 0, validatedItems, warnings, |warnings| > 0);
  }
}
