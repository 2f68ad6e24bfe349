# Stock reservation, cart and OTP core of a Next.js shop, in Dafny

This project models the server-side core of an e-commerce shop built on
MongoDB and Redis, and the browser-side cart store that talks to it. It
proves properties of the model.

- **Stock ledger.** Each product keeps four counters:
  - `countInStock`: the physical stock;
  - `reservedStock`: held by unpaid orders;
  - `availableStock`: what may still be sold;
  - `numSales`.

  An order moves from `reserved` to `confirmed` (paid) or to `released`
  (cancelled or expired).
  - `reserveStock` holds every item of the order.
  - `confirmStock` turns the hold into a sale.
  - `releaseStock` drops the hold.

  Each runs under a Redis order lock, inside a MongoDB transaction that is
  retried up to three times on a write conflict. A cron reaper releases
  every reservation older than 30 minutes. The older version of the same
  actions is modelled next to the current one and compared with it. So is
  the one-off migration that rebuilt the counters from the open orders.
- **Redis locks.** Lock keys are `lock:<type>:<id>`, with per-type TTLs.
- **Cart.**
  - The Zustand store (`useCartStore`) keeps the cart, the sign-in state
    and the sync bookkeeping.
  - The server actions load and save a user's cart.
  - On sign-in, the guest cart is merged into the saved one and the result
    is checked against the catalogue.
  - Two checks compare a cart with current stock: one reports errors and
    warnings, the other clamps or drops lines.
- **OTP service.**
  - Codes are single-use and expire after 10 minutes.
  - Wrong guesses count towards a lockout.
  - Sends are rate-limited per e-mail address and per IP address.
- **E-mail change session.** The pending change is kept for ten minutes in
  the browser's session storage.

### How the model is built

- **Modules follow the source files:**

  | module | models |
  |---|---|
  | `RedisLock` | the lock helpers |
  | `TransactionRetry` | the retry loop |
  | `StockLedger` | the counters and transaction bodies, with the `Db` class |
  | `StockActions` | the exported stock actions and the reaper |
  | `StockActionsOld` | the legacy stock actions |
  | `MigrateStock` | the migration script |
  | `CartTypes` | the cart records |
  | `CartActions` | the stock check and sync for a cart |
  | `CartDbActions` | cart persistence, merge and validation |
  | `CartStore` | the Zustand store |
  | `OtpService` | the OTP service |
  | `EmailChangeSession` | the e-mail change session |

- **Stateful services are classes.** The Mongo collections (`Db`,
  `CartDb`), the Redis store (`LockStore`, `OtpRedis`), the cart store
  (`CartState`) and session storage (`SessionStorage`) are classes. Their
  methods update fields in place. Each method is proved against a pure
  function of the old state, and the properties are lemmas about those
  functions.
- **Outside effects become parameters.**
  - Clocks are a `now` parameter.
  - Store failures are a `reachable` flag.
  - MongoDB write conflicts are a `conflictAt: nat -> bool` parameter. It
    says which attempts of the retry loop hit one.
  - A product query that throws is a `None` catalogue.
  - The price calculation (`calcDeliveryDateAndPrice`) is an uninterpreted
    `pricer` function.

### Where the documentation and the code disagree

The model follows the code in each case.

- The doc comment of `acquireLock` (lib/redisLock.ts:23) promises `false`
  when the lock is already held, and the design treats the lock as "set if
  absent, with expiry". The call itself (lib/redisLock.ts:27) issues
  `SET key 1 EX ttl` without `NX`. So it succeeds whenever Redis answers,
  even when the key is held.
  `RedisLock.ReacquireHeldOrderLock` states this. The reaper depends on it:
  it holds the order lock and then calls `releaseStock`, which acquires the
  same lock again (lib/actions/stock.actions.ts:257-264).
- The OTP lockout message says 30 minutes. `LOCKOUT_MINUTES` is 2
  (lib/constants.ts:73), and the model uses 2.
- The comment on `RATE_LIMIT_WINDOW` says one hour. The value is 2 minutes
  (lib/constants.ts:74).

## Model

| member | source | states |
|---|---|---|
| RedisLock.MakeLockKey | lib/redisLock.ts:15-17 | the key is "lock:", then the type name, then ":", then the id |
| RedisLock.MakeLockKeyInjective | lib/redisLock.ts:15-17 | distinct (type, id) pairs never share a lock key |
| RedisLock.LockStore.AcquireLock | lib/redisLock.ts:25-34 | succeeds exactly when Redis answers, whether or not the key is already held; it then sets the key with the TTL (default 15 s); a store error answers false and changes nothing |
| RedisLock.LockStore.ReleaseLock | lib/redisLock.ts:40-46 | deletes the key when Redis answers; an error is swallowed |
| RedisLock.LockStore.AcquireOrderLock | lib/redisLock.ts:51-53 | acquires `lock:order:<id>` with a 20 s default TTL |
| RedisLock.LockStore.ReleaseOrderLock | lib/redisLock.ts:55-57 | deletes `lock:order:<id>` |
| RedisLock.LockStore.AcquireUserLock | lib/redisLock.ts:62-64 | acquires `lock:user:<id>` with a 10 s default TTL |
| RedisLock.LockStore.ReleaseUserLock | lib/redisLock.ts:66-68 | deletes `lock:user:<id>` |
| RedisLock.LockStore.AcquireProductLock | lib/redisLock.ts:73-75 | acquires `lock:product:<id>` with a 25 s default TTL |
| RedisLock.LockStore.ReleaseProductLock | lib/redisLock.ts:77-79 | deletes `lock:product:<id>` |
| RedisLock.ReacquireHeldOrderLock | lib/redisLock.ts:25-29 | a second acquire of a held order lock succeeds too, so the lock does not exclude anyone |
| TransactionRetry.RetryFrom | lib/actions/stock.actions.ts:22-79 | the loop stops at the first attempt without a conflict, or at attempt 3; every earlier attempt was a conflict; the backoff before retry k is k*100 ms; the result is that attempt's value or error, and a conflict at attempt 3 is rethrown |
| TransactionRetry.RetryFromConflict | lib/actions/stock.actions.ts:22-79 | a conflict before the third attempt waits attempt*100 ms and hands over to the next attempt |
| TransactionRetry.RunWithRetry | lib/actions/stock.actions.ts:22-79 | the `for` loop with its `continue` computes the same run as the specification |
| TransactionRetry.RetryAbsorbsConflicts | lib/actions/stock.actions.ts:66-77 | if attempts 1..k-1 conflict and attempt k does not, the outcome is attempt k's, after k attempts |
| StockLedger.ApplyItemsLoop | lib/actions/stock.actions.ts:38-49 | the per-item loop over the order's items computes the per-item rule over the whole list, stopping at the first error |
| StockLedger.ApplyItemsSucceedsIff | lib/actions/stock.actions.ts:38-49 | the item loop succeeds exactly when every product exists (where the rule needs it) and no product's total quantity across the order exceeds its budget |
| StockLedger.ApplyItemEffect | lib/actions/stock.actions.ts:38-49 | one successful iteration `$inc`s the line's product by the line's quantity and leaves every other product as it was |
| StockLedger.ApplyItemsEffect | lib/actions/stock.actions.ts:38-49 | after a successful loop, each product is shifted by the total quantity the order asks of it, and no product is added or dropped |
| StockLedger.ReserveTxSpec | lib/actions/stock.actions.ts:28-60 | a missing order fails, and so does one whose status is not `reserved`; otherwise the transaction succeeds iff every item fits the count-minus-reserved budget; it then holds each quantity, stamps the order and sets its expiry to now + 30 min |
| StockLedger.ConfirmTxSpec | lib/actions/stock.actions.ts:103-137 | a missing order fails; a confirmed order succeeds with nothing written; a released order fails; a reserved order sells each quantity, leaves `availableStock` alone and marks the order confirmed |
| StockLedger.ReleaseTxSpec | lib/actions/stock.actions.ts:182-209 | a missing order fails; a released order succeeds with nothing written; a confirmed order cannot be released; a reserved order always releases: the hold is dropped, the physical count is kept, and the reason is recorded |
| StockLedger.ConfirmIdempotent | lib/actions/stock.actions.ts:106-108 | confirming twice is the same as confirming once |
| StockLedger.ReleaseIdempotent | lib/actions/stock.actions.ts:185-187 | releasing twice, for any reasons, is the same as releasing once |
| StockLedger.ReleaseUndoesReserve | lib/actions/stock.actions.ts:193-199 | releasing right after a reserve restores every product counter |
| StockLedger.ConfirmAfterReserve | lib/actions/stock.actions.ts:114-134 | reserve then confirm takes the order's quantity off the physical and available stock, adds it to sales and leaves `reservedStock` as it was |
| StockLedger.TransactionsKeepBalance | lib/actions/stock.actions.ts:38-49 | every committed transaction keeps `availableStock == countInStock - reservedStock` |
| StockLedger.ReserveAndConfirmKeepNonNegative | lib/actions/stock.actions.ts:42-45 | on a balanced, non-negative ledger, reserve and confirm never drive a counter below zero |
| StockLedger.ReserveTwiceHoldsTwice | lib/actions/stock.actions.ts:28-60 | the status guard lets a second reserve through on an already reserved order, which holds the quantity again |
| StockLedger.ReserveConfirmScenario | lib/actions/stock.actions.ts:16-160 | a concrete run: reserving 4 of 10 and confirming gives (6, 6, 0, 4), and a later reserve fails as already processed |
| StockActions.TransactionOutcome | lib/actions/stock.actions.ts:22-79 | a transaction fails with a write conflict only if all three attempts conflict; otherwise its outcome is the body's result |
| StockActions.RetryTransaction | lib/actions/stock.actions.ts:22-79 | the collections change only on success, to what the body committed; aborted attempts leave nothing behind |
| StockActions.ReserveAttempt | lib/actions/stock.actions.ts:28-60 | the reserve transaction body computes `ReserveTx` |
| StockActions.ConfirmAttempt | lib/actions/stock.actions.ts:103-137 | the confirm transaction body computes `ConfirmTx` |
| StockActions.ReleaseAttempt | lib/actions/stock.actions.ts:182-209 | the release transaction body computes `ReleaseTx` |
| StockActions.ReserveStock | lib/actions/stock.actions.ts:16-83 | without the order lock it fails as busy and changes nothing; otherwise it runs the retried reserve and releases the lock in any case |
| StockActions.ConfirmStock | lib/actions/stock.actions.ts:91-160 | without the order lock it fails as busy and changes nothing; otherwise it runs the retried confirm and releases the lock |
| StockActions.ReleaseStock | lib/actions/stock.actions.ts:168-231 | without the order lock it fails as busy and changes nothing; otherwise it runs the retried release and releases the lock |
| StockActions.MatchingExpired | lib/actions/stock.actions.ts:242-245 | the query returns exactly the scanned orders that are reserved with an expiry before now |
| StockActions.ExpiredOrders | lib/actions/stock.actions.ts:242-245 | the batch is a prefix of the matching orders: the first `batchSize` of them, or all of them when `batchSize` is 0 or they fit |
| StockActions.ReapOneFacts | lib/actions/stock.actions.ts:253-275 | one reaped order: the result names it, success means no message, and no other order changes; an unreachable lock store skips it as locked; a reserved order is released as expired unless all three attempts conflict |
| StockActions.ReapAllShape | lib/actions/stock.actions.ts:253-275 | one result per candidate, in order; only candidates change; the ledger stays balanced; with Redis down everything is skipped |
| StockActions.ReapReleasesCandidates | lib/actions/stock.actions.ts:240-281 | with Redis up and distinct reserved candidates, every candidate succeeds, ends released as expired and is never found expired again |
| StockActions.ReapOrder | lib/actions/stock.actions.ts:254-274 | one turn of the reaper loop: lock, release as expired, record, unlock |
| StockActions.ReapCandidates | lib/actions/stock.actions.ts:253-275 | the reaper loop computes `ReapAll` and frees every candidate's lock |
| StockActions.ReleaseExpiredReservations | lib/actions/stock.actions.ts:240-281 | reaps the expired batch and reports `processed` as the number of results |
| StockActionsOld.LegacyReserveTxSpec | lib/actions/stock.actions_old.ts:15-56 | the legacy reserve checks `availableStock` rather than count minus reserved; on success it holds each quantity, sets `stockReservedAt` to now and the expiry to now + 30 min, leaves the status and the rest of the order as they were, and replies with the expiry |
| StockActionsOld.ReserveChecksAgree | lib/actions/stock.actions_old.ts:30-33 | on a balanced ledger, the legacy and current item checks compute the same thing |
| StockActionsOld.LegacyReserveMatchesCurrent | lib/actions/stock.actions_old.ts:8-66 | on a balanced ledger, the legacy reserve transaction equals the current one |
| StockActionsOld.ReserveChecksDiffer | lib/actions/stock.actions_old.ts:30-33 | on an unbalanced ledger, the two checks give different answers |
| StockActionsOld.LegacyConfirmTxSpec | lib/actions/stock.actions_old.ts:76-104 | the legacy confirm sells without checking the physical stock |
| StockActionsOld.LegacyConfirmOverdraws | lib/actions/stock.actions_old.ts:86-101 | one unit in stock and none reserved, an order for two: the legacy confirm leaves `countInStock` at -1 and `reservedStock` at -2, where the current confirm refuses |
| StockActionsOld.SingleAttemptIsSteadyRetry | lib/actions/stock.actions_old.ts:58-65 | one attempt without retry behaves like the retry loop when the conflict is the same on every attempt |
| StockActionsOld.RetryRecoversWhereLegacyFails | lib/actions/stock.actions_old.ts:58-65 | one transient conflict fails the legacy action, while the current retry loop recovers |
| StockActionsOld.LegacyReserveAttempt | lib/actions/stock.actions_old.ts:15-56 | the legacy reserve body computes `LegacyReserveTx` |
| StockActionsOld.LegacyConfirmAttempt | lib/actions/stock.actions_old.ts:76-104 | the legacy confirm body computes `LegacyConfirmTx` |
| StockActionsOld.RunOnce | lib/actions/stock.actions_old.ts:58-65 | one transaction without retry: commit on success, nothing on failure |
| StockActionsOld.ReserveStock | lib/actions/stock.actions_old.ts:8-66 | the legacy reserve, without lock or retry |
| StockActionsOld.ConfirmStock | lib/actions/stock.actions_old.ts:69-114 | the legacy confirm, without lock or retry |
| StockActionsOld.ReleaseStock | lib/actions/stock.actions_old.ts:117-168 | the legacy release, with the same body as the current one and no retry |
| StockActionsOld.LegacyReapIsSteadyReap | lib/actions/stock.actions_old.ts:179-186 | the legacy reaper is the current one with Redis up and a steady conflict per order |
| StockActionsOld.LegacyReapReleasesAll | lib/actions/stock.actions_old.ts:171-192 | without conflicts the legacy reaper releases every expired order it finds |
| StockActionsOld.MatchingExpiredDistinct | lib/actions/stock.actions_old.ts:173-176 | the expired query returns no order twice |
| StockActionsOld.LegacyReapOrder | lib/actions/stock.actions_old.ts:180-185 | one turn of the legacy reaper loop |
| StockActionsOld.ReleaseExpiredReservations | lib/actions/stock.actions_old.ts:171-196 | the legacy reaper over all expired orders, with no batch limit or lock |
| MigrateStock.StampOpen | scripts/migrate-stock.ts:27-39 | every undelivered order is stamped reserved with a fresh expiry; delivered orders are untouched |
| MigrateStock.PendingOrders | scripts/migrate-stock.ts:44-47 | exactly the scanned orders that are reserved and unpaid |
| MigrateStock.PendingOrdersDistinct | scripts/migrate-stock.ts:44-47 | a scan without repeats yields no pending order twice |
| MigrateStock.RereserveStep | scripts/migrate-stock.ts:49-61 | re-reserving one more pending order succeeds and adds its quantities to every product's held total |
| MigrateStock.MigrateStock | scripts/migrate-stock.ts:10-68 | over a scan of the whole collection, the script resets the counters, stamps the open orders and re-reserves the pending ones |
| MigrateStock.MigratedCounters | scripts/migrate-stock.ts:15-61 | afterwards `reservedStock` is the pending quantity and `availableStock` is count minus it; count and sales are kept; the ledger is balanced |
| MigrateStock.MigratedNonNegativeIff | scripts/migrate-stock.ts:49-61 | the migration leaves the ledger non-negative exactly when no product's physical stock is short of its pending quantity |
| MigrateStock.UnmentionedNotReserved | scripts/migrate-stock.ts:49-61 | a product that no pending order mentions ends with nothing reserved |
| MigrateStock.OpenUnpaidOrdersCounted | scripts/migrate-stock.ts:27-47 | the counted orders are exactly the unpaid ones that are undelivered, or delivered but still `reserved`; over a scan of the whole collection, each of them once |
| CartActions.IssuesEmptyIff | lib/actions/cart.actions.ts:32-53 | there is an error entry exactly when some line's product is missing or has nothing available |
| CartActions.WarningsEmptyIff | lib/actions/cart.actions.ts:54-62 | there is a warning entry exactly when some line asks for more than the nonzero available stock |
| CartActions.CollectIssues | lib/actions/cart.actions.ts:32-63 | the loop builds the error and warning lists |
| CartActions.ValidateCartStock | lib/actions/cart.actions.ts:7-105 | errors win over warnings, which are then dropped; warnings alone still fail; success exactly when no line is out of stock or short; a failed query reports an error with empty lists |
| CartActions.SyncedAppend | lib/actions/cart.actions.ts:117-130 | the sync works line by line, in order |
| CartActions.SyncedShape | lib/actions/cart.actions.ts:117-130 | kept lines exist with stock, record it as `countInStock` and ask no more than it |
| CartActions.SyncRemovedCount | lib/actions/cart.actions.ts:132-144 | `removedCount` is the number of dropped lines; a failed query returns the lines unchanged with 0 removed |
| CartActions.SyncIdempotent | lib/actions/cart.actions.ts:108-145 | syncing a synced cart changes nothing |
| CartActions.SyncThenValidateClean | lib/actions/cart.actions.ts:108-145 | after a sync, the stock check finds neither errors nor warnings |
| CartDbActions.LoadCart | lib/actions/cart-db.actions.ts:16-68 | a cart comes back exactly when the store answers and holds one for the user; success exactly when the store answers |
| CartDbActions.StoreDeleteLoad | lib/actions/cart-db.actions.ts:73-262 | load after save returns the saved cart; load after delete returns none; other users are unaffected |
| CartDbActions.CartDb.SaveCartToDB | lib/actions/cart-db.actions.ts:73-123 | upserts the user's cart when the store answers |
| CartDbActions.CartDb.DeleteUserCart | lib/actions/cart-db.actions.ts:246-262 | removes the user's cart when the store answers |
| CartDbActions.MapSetFacts | lib/actions/cart-db.actions.ts:140-150 | `Map.set` on an existing key replaces the entry in place; on a new key it appends |
| CartDbActions.MapSetAllSpec | lib/actions/cart-db.actions.ts:138-150 | keys are distinct and in first-seen order; each entry is the last line set under its key |
| CartDbActions.MergeSpec | lib/actions/cart-db.actions.ts:136-152 | every input key appears once; database keys come first; a local line wins over the database line with the same key |
| CartDbActions.StringKeyMergesDistinctLines | lib/actions/cart-db.actions.ts:141-148 | as written, lines ("navy-blue", "M") and ("navy", "blue-M") share the key and one is lost |
| CartDbActions.MergeByLine | lib/actions/cart-db.actions.ts:136-152 | merging by (product, color, size) keeps one line per identity and loses none; the local line wins |
| CartDbActions.StringKeyMergeAgrees | lib/actions/cart-db.actions.ts:136-152 | when the joined string tells every pair of lines apart, the merge as written is the merge by (product, color, size) |
| CartDbActions.ValidateLinesSpec | lib/actions/cart-db.actions.ts:157-193 | no warnings exactly when every line fits; kept lines are published, in stock, within stock, at the catalogue price |
| CartDbActions.ValidateLinesIdempotent | lib/actions/cart-db.actions.ts:157-193 | validating the validated lines keeps them and warns of nothing |
| CartDbActions.ValidateMerged | lib/actions/cart-db.actions.ts:155-193 | the validation loop computes `ValidateLines` |
| CartDbActions.PrecedenceOnFalsyValues | lib/actions/cart-db.actions.ts:202-204 | an empty local payment method falls back to the database's, but a local delivery index of 0 is kept |
| CartDbActions.PrecedenceLocalWins | lib/actions/cart-db.actions.ts:202-204 | a set local address, a non-empty local payment method and a set local delivery index win; without a database cart, the local values stand |
| CartDbActions.MergeItems | lib/actions/cart-db.actions.ts:136-152 | the merge loop computes `Merge` keyed, as written, by the joined string `product-color-size` |
| CartDbActions.MergeAndValidateCart | lib/actions/cart-db.actions.ts:128-241 | a failed product query fails with no cart and no warnings, and saves nothing; otherwise the string-keyed merge, validated and priced, is reported with its warnings, `hasChanges` holds iff there is a warning, and the cart is saved when the store answers |
| CartDbActions.MergeOutcomeSpec | lib/actions/cart-db.actions.ts:136-229 | the merged lines have one line per string key; there is a warning, and so `hasChanges`, exactly when some merged line does not fit the catalogue; the reported cart holds the validated lines, and every one of them fits |
| CartDbActions.ReviewLinesSpec | lib/actions/cart-db.actions.ts:274-296 | a note is raised exactly when some line does not fit; lines whose product is missing, unpublished or sold out are dropped; kept lines carry the current price and stock |
| CartDbActions.ClampVersusWarn | lib/actions/cart-db.actions.ts:287-295 | on a line of 5 against 3 available, the merge check clamps it to 3, while the standalone check keeps 5; both warn |
| CartDbActions.ValidateCartStock | lib/actions/cart-db.actions.ts:267-312 | the loop computes `ReviewLines`; success exactly when every line fits, with `hasIssues` its negation; a failed query gives one failure note and no lines |
| CartStore.FindLine | hooks/use-cart-store.ts:212-212 | `find` returns the first line with the same product, color and size, or none iff there is none |
| CartStore.AddNewLineCheckIgnoresQuantity | hooks/use-cart-store.ts:218-226 | as written, adding 10 of an item whose own quantity is 1 and stock 5 is accepted |
| CartStore.AddedLinesAsWrittenSpec | hooks/use-cart-store.ts:209-226 | as written, an add to an existing line succeeds iff its new total fits its stock, a new line iff the item's own quantity fits its stock; the line then holds the previous plus the added quantity and keeps its client id; other lines are untouched and the cart grows only by a new line |
| CartStore.AddedLinesAgree | hooks/use-cart-store.ts:213-221 | the as-written and checked adds differ only on a new line whose own quantity is not the quantity added, and agree whenever both succeed |
| CartStore.AddedLinesWithinStock | hooks/use-cart-store.ts:209-237 | the checked add, as the existing-line branch does it: it succeeds iff the line it leaves is within `countInStock`; the line holds the previous plus the added quantity; the other lines are untouched |
| CartStore.AddedLinesKeepIdentities | hooks/use-cart-store.ts:224-226 | adding, as written, keeps one line per (product, color, size), and grows the cart exactly on a new identity |
| CartStore.UpdatedLinesSpec | hooks/use-cart-store.ts:253-258 | an update of a present line sets only that line's quantity; an absent line is a no-op |
| CartStore.RemovedLines | hooks/use-cart-store.ts:277-277 | keeps exactly the lines with another client id |
| CartStore.RemovedLinesKeepIdentities | hooks/use-cart-store.ts:274-277 | removing keeps one line per identity |
| CartStore.RemoveAbsent | hooks/use-cart-store.ts:277-277 | removing an absent client id changes nothing |
| CartStore.AddThenRemove | hooks/use-cart-store.ts:209-291 | adding a new line whose own quantity fits its stock and then removing it by client id restores the lines |
| CartStore.AddThenLoadSeesLine | hooks/use-cart-store.ts:209-251 | after an add is synced, loading the cart sees the added line |
| CartStore.CartState.constructor | hooks/use-cart-store.ts:12-60 | the initial store: empty cart, signed out, no sync |
| CartStore.CartState.Rehydrated | hooks/use-cart-store.ts:371-376 | after a reload only the persisted cart survives; the session fields start over |
| CartStore.CartState.SyncWithDB | hooks/use-cart-store.ts:136-164 | saves only when signed in with a user id and no sync under way; stamps the time when the save succeeds |
| CartStore.CartState.AddItem | hooks/use-cart-store.ts:209-251 | the add as written: a refused add changes nothing; otherwise the lines are updated, repriced and synced, and the client id of the line holding the item is returned |
| CartStore.CartState.UpdateItem | hooks/use-cart-store.ts:253-272 | an update of an absent line is a no-op; otherwise the quantity is set, and the cart repriced and synced |
| CartStore.CartState.RemoveItem | hooks/use-cart-store.ts:274-291 | removes the lines by client id, then reprices and syncs |
| CartStore.CartState.SetShippingAddress | hooks/use-cart-store.ts:293-306 | sets the address, reprices without a delivery index, and syncs |
| CartStore.CartState.SetPaymentMethod | hooks/use-cart-store.ts:308-316 | sets the payment method and syncs, without repricing |
| CartStore.CartState.SetDeliveryDateIndex | hooks/use-cart-store.ts:318-331 | reprices with the index, and syncs |
| CartStore.CartState.ClearCart | hooks/use-cart-store.ts:333-340 | resets the cart and syncs the empty cart |
| CartStore.CartState.ClearCartLocalStorage | hooks/use-cart-store.ts:342-348 | resets the cart without syncing |
| CartStore.CartState.SetAuthState | hooks/use-cart-store.ts:202-204 | sets only the sign-in state |
| CartStore.CartState.SyncCartStock | hooks/use-cart-store.ts:350-367 | on success the lines become the synced lines; on failure nothing changes |
| CartStore.CartState.LoadCartFromDB | hooks/use-cart-store.ts:98-131 | a found cart replaces the local one; otherwise the local cart is kept; the user is signed in either way |
| CartStore.CartState.InitializeCart | hooks/use-cart-store.ts:68-93 | does nothing while syncing or within 5 s of the last sync; with a non-empty user id it loads, taking the found cart and stamping `lastSyncedAt`, otherwise it signs out |
| CartStore.CartState.MergeGuestCartOnLogin | hooks/use-cart-store.ts:169-200 | loads the saved cart, merges it with the local one by the string key as written, and adopts the merged cart when the merge succeeds |
| OtpService.Get | lib/services/otp.service.ts:38-48 | a Redis read sees a key exactly while it is live |
| OtpService.Saved | lib/services/otp.service.ts:13-26 | after a save, the code is live with zero attempts, and locks are untouched |
| OtpService.FailuresWithoutWrites | lib/services/otp.service.ts:36-55 | a locked account, or no live code, fails and writes nothing |
| OtpService.SingleUse | lib/services/otp.service.ts:59-87 | verification succeeds iff unlocked with a matching live code, and it consumes the code so it can never succeed again |
| OtpService.WrongGuess | lib/services/otp.service.ts:60-80 | a wrong guess counts one attempt: below the limit the code is rewritten for a fresh window and the tries left are reported; at the limit the code is deleted and the lock holds for the lockout period |
| OtpService.GuessesCounted | lib/services/otp.service.ts:60-80 | after n wrong guesses on a fresh code, the count is n; at 50 the account is locked |
| OtpService.RateLimitSpec | lib/services/otp.service.ts:91-128 | the email limit is checked first, then the IP limit; a refusal writes nothing; an allowed send bumps both counters, creating them at 1, and touches no other key |
| OtpService.SharedSendPrefix | lib/services/otp.service.ts:92-93 | an email equal to the IP string shares its counter, which one send bumps twice |
| OtpService.EmailSendsBounded | lib/services/otp.service.ts:96-119 | one email is allowed at most 50 sends within a window that starts empty |
| OtpService.OtpExpiry | lib/services/otp.service.ts:131-135 | the expiry is never negative, and positive iff the code is live |
| OtpService.ExpiryAfterSave | lib/services/otp.service.ts:13-26 | after a save, the expiry counts down from 600 s |
| OtpService.OtpRedis.SaveOTP | lib/services/otp.service.ts:13-26 | the store after a save |
| OtpService.OtpRedis.VerifyOTP | lib/services/otp.service.ts:29-88 | the verification reply and the store after it |
| OtpService.OtpRedis.CheckSendRateLimit | lib/services/otp.service.ts:91-128 | the send decision and the counters after it |
| OtpService.OtpRedis.GetOTPExpiry | lib/services/otp.service.ts:131-135 | the remaining seconds, never negative |
| EmailChangeSession.Lookup | lib/services/email-change-session.service.ts:27-47 | a session is returned iff in a browser, stored, parseable and not more than ten minutes old |
| EmailChangeSession.SlotAfterLookup | lib/services/email-change-session.service.ts:33-46 | a read clears the slot only on expiry or unparsable text; a found session is left in place |
| EmailChangeSession.RemainingSeconds | lib/services/email-change-session.service.ts:59-61 | the remaining time is never negative |
| EmailChangeSession.LookupIdempotent | lib/services/email-change-session.service.ts:27-47 | a second read at the same moment reads the same and changes nothing |
| EmailChangeSession.SaveThenLookup | lib/services/email-change-session.service.ts:14-47 | a saved session reads back for exactly ten minutes, then is gone and cleared |
| EmailChangeSession.RemainingSecondsSpec | lib/services/email-change-session.service.ts:55-62 | at most 600; positive iff at most 599 s have passed; never increasing over time |
| EmailChangeSession.ClockSkewOverstates | lib/services/email-change-session.service.ts:59-61 | a session stamped 5 s in the future reports 605 s left |
| EmailChangeSession.SessionStorage.Save | lib/services/email-change-session.service.ts:14-24 | stores the session in a browser; does nothing on the server |
| EmailChangeSession.SessionStorage.Clear | lib/services/email-change-session.service.ts:65-69 | empties the slot in a browser |
| EmailChangeSession.SessionStorage.Get | lib/services/email-change-session.service.ts:27-47 | returns `Lookup` and leaves `SlotAfterLookup` |
| EmailChangeSession.SessionStorage.IsValid | lib/services/email-change-session.service.ts:50-52 | true iff `get()` finds a session |
| EmailChangeSession.SessionStorage.GetRemainingTime | lib/services/email-change-session.service.ts:55-62 | the whole seconds left of the found session, or 0 without one |

## Left out

- **Concurrency.** The model has no real concurrency. Two requests never
  interleave, and each operation runs to completion.
  - Redis lock TTL expiry is not modelled: a held key stays until it is
    released.
  - MongoDB write conflicts are an input (`conflictAt`), not the result of
    competing transactions.
- **The retry filter.** The regular expression on the error message
  (`WriteConflict|TransientTransactionError`, stock.actions.ts:71) is
  modelled as the attempt's `Conflict` outcome.
- **Backoff waits.** The `setTimeout` backoff delays are recorded as
  numbers (`RetryFrom`), not slept.
- **The reaper's outer `catch`.** In `releaseExpiredReservations`
  (stock.actions.ts:282-287) the model's query cannot throw.
- **The migration's `catch` and connection handling**
  (scripts/migrate-stock.ts:65-67) are not modelled.
- **One timestamp per call.** Each call reads the clock once, as `now`.
  - The two `new Date()` calls of the current reserve
    (lib/actions/stock.actions.ts:34,55), of the legacy reserve and of the
    migration are one `now`.
  - Every retried attempt of a stock transaction, made after the 100 or
    200 ms backoff, reuses the `now` of the first attempt.
  - So do the separate `Date.now()` calls in `getRemainingTime` and the
    `get()` it makes.
- **Prices.** `calcDeliveryDateAndPrice` is not part of this model. It is
  an uninterpreted `pricer`, and floating-point money is never computed.
- **Message texts** and `console` logging are not modelled. Messages become
  datatype constructors (`CheckMessage`, `StockNote`, `MergeWarning`).
- **`generateOTP`** draws from `Math.random`. The code is a parameter of
  `SaveOTP`.
- **OTP data in Redis.**
  - JSON encoding and `parseInt` are not modelled. Records and counters are
    typed values.
  - The `otp:`, `otp:lock:` and `otp:send:` key families live in separate
    maps. An email whose text makes `otp:<email>` equal to another family's
    key is not modelled: `otp:<email>` for the e-mail `lock:x` is the lock of
    `x`, and for the e-mail `send:x` it is the send counter of `x`
    (lib/services/otp.service.ts:14,92).
- **Redis TTLs** are whole seconds against the `now` parameter. Rounding
  inside Redis is not modelled.
- **E-mail change session parsing.** JSON that parses but is not a session
  object is not modelled. The slot holds a session, empty text or
  unparsable text.
- **Cart store hydration.** `_hasHydrated`, `setHasHydrated` and
  `onRehydrateStorage` only drive the UI and are not modelled.
- **Persistence.** The `state?.cart` fallback in `partialize` is not
  modelled separately, because the store always holds a cart.
- **The sync debounce.** `syncWithDB`'s 500 ms debounce
  (`SYNC_DEBOUNCE_MS`) is modelled as an immediate save of the cart at call
  time.
- **The load timeout.** The 5 s timeout race in `loadCartFromDB` ends like
  a failed load and is modelled as one.
- **Unreachable `catch` blocks.**
  - The outer `catch` of `mergeGuestCartOnLogin` cannot be reached in the
    model, because every step returns a result.
  - The `catch` of `initializeCart` falls back to a guest, and its guarded
    calls cannot throw in the model either.
- **Cart-action `catch` messages** are the error's text, which is not
  modelled. The failure paths themselves are modelled.
- **Quantities** are mathematical integers. JavaScript numbers are doubles
  and are not modelled as such.
- **Lookup helpers.** `Order.findById`, `Product.findById` and
  `connectToDatabase` are map lookups. The MongoDB session is not
  modelled.
- ReapOneFacts: that the nested acquire never reports busy holds because
  the lock store is reachable or not for a whole call. In the source the
  second acquire, in `releaseStock` (lib/actions/stock.actions.ts:169), can
  fail after the reaper's own acquire (lib/actions/stock.actions.ts:257)
  succeeded. The model does not capture that case.
- **The query scans.** A MongoDB query is modelled over `scan`, the
  collection in its natural order. The reapers and the migration require it
  to list every order exactly once (`ScanOf`).
- **Migration stamping.** The migration stamps every undelivered order as
  reserved, including orders that are already paid
  (scripts/migrate-stock.ts:27-39). The model follows this. Step 3 counts
  only unpaid orders, so paid undelivered orders end up stamped `reserved`
  but are never counted.

## Findings

The operations follow the code as written: the merge
(`CartDbActions.MergeItems`, `MergeAndValidateCart`, and
`CartStore.CartState.MergeGuestCartOnLogin`) keys lines by the joined
string, and `CartStore.CartState.AddItem` checks a new line against the
item's own quantity. The corrected members state what was evidently
intended. `CartDbActions.StringKeyMergeAgrees` and
`CartStore.AddedLinesAgree` say where the two coincide.

| source | as written | input that shows it | evidently intended | confidence | as-written member | corrected member |
|---|---|---|---|---|---|---|
| lib/actions/cart-db.actions.ts:141 | the merge keys lines by the string `product-color-size` | two lines of one product, with color "navy-blue" and size "M", and with color "navy" and size "blue-M": both get the key `p1-navy-blue-M`, and one line is lost | key lines by the (product, color, size) triple, as `addItem` does when it matches lines | low, not executed | CartDbActions.StringKeyMergesDistinctLines | CartDbActions.MergeByLine |
| hooks/use-cart-store.ts:219 | a new line is rejected when `item.countInStock < item.quantity`, i.e. against the item's own quantity, not the quantity being added | an item with quantity 1 and stock 5, added with quantity 10: accepted as a line of 10 | compare the stock with the quantity being added (`countInStock < quantity`), as the existing-line branch does | low, not executed | CartStore.AddNewLineCheckIgnoresQuantity | CartStore.AddedLinesWithinStock |
