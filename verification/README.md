# Multi-tenant point of sale: a Dafny model

This project models the core of a multi-tenant point-of-sale web application.
A super administrator manages stores, and each store has an owner account.
Store owners, managers and sellers work inside one store at a time: its
products, customers, sales and receipts. They also see a dashboard and a
reports page. All data lives in the browser's key/value storage.

The model works as follows.

- **Storage** (`Storage`) is a map from seven slots to typed values: the current user, the active store,
  and the products, customers, sales, stores and users collections. A missing or
  foreign slot reads as "nothing stored", which is `None` or an empty
  sequence. Every page operation is a pure function from one storage to the
  next, so "nothing else changes" is a checkable frame property
  (`SameOutside`).
- **The data model** (`Types`) has one datatype per record: `User`, `Store`, `Product`,
  `Customer`, `Sale` and `SaleItem`. The three closed enumerations are `Role`,
  `PaymentMethod` and `SaleStatus`. An optional text field of the
  application is `Option<string>`. A store id or receipt code that may be
  absent is `""`.
- **Access control** (`AccessControl`) is the pair of checks every write passes through:
  `ValidateStoreAccess` and `EnforceStoreId`. It also holds the record-level
  predicates.
- **The session** (`AuthContext`) is a state machine: restore on start-up, login,
  logout and switching the active store.
- **Start-up seeding and repair** are modelled by `InitData`.
- **Every page** is one module: `AdminStores`, `NewSale`, `ProductsPage`,
  `CustomersPage`, `ReportsPage`, and `SaleLists` for the sales history and
  receipt list. The pages share the aggregations of `DashboardUtils`,
  `StoreStatistics` and `Grouping`, and the display names of `Labels`.
- **Time** is an integer count of milliseconds passed in as `now`. The ISO
  text of the current instant is passed in as `nowIso`. Parsing a stored
  timestamp is the parameter `instant: string -> int`.
- **Fresh values** are parameters too. Fresh ids (`Date.now().toString()`),
  receipt codes and the random part of a receipt code are given by the
  caller.
- **Money** is an integer number of the currency's smallest unit. The only
  division, the average ticket, is a `real`.
- **Statistics** are computed purely: the stored collections are never
  rewritten by a statistic.

The properties proved are of four kinds:

- what the tenant guards accept: with a signed-in user and an active store, a guarded write is accepted exactly when the record it names belongs to the active store, or the user is the super administrator. Without either, every write is rejected, the super administrator's included (`AccessControl.EnforceStoreId`). The guards check only the record the page was given. Edits and deletes then match stored records by id alone, so a same-id record of another store is rewritten or removed too (`ProductsPage.EditCrossesTenants`);
- round trips: create then delete, add then remove from the cart, login then reload, initialise twice;
- invariants each page operation keeps: a valid cart stays valid, and initialisation leaves nothing to repair. Stock stays non-negative when a sale is recorded, under three conditions: the cart is valid against the catalogue shown, that catalogue matches storage, and product ids are unique within it (`NewSale.DestockStaysNonNegative`);
- agreement of every aggregate with the underlying sales: group counts sum to the number of sales, group totals sum to revenue and profit.

## Model

| member | source | states |
|---|---|---|
| AccessControl.CanAccessStore | lib/access-control.ts:11-19 | access is granted exactly to a logged-in user who is super admin or whose own store id is the one asked for |
| AccessControl.IsAdmin | lib/access-control.ts:22-25 | true exactly for a logged-in super admin |
| AccessControl.HasRole | lib/access-control.ts:102-105 | true exactly when a user is logged in and their role is among those listed |
| AccessControl.ValidateStoreAccess | lib/access-control.ts:28-53 | no user gives Unauthenticated, no active store gives NoActiveStore, and the only denials are those two and CrossTenantAccess |
| AccessControl.ValidateForTenant | lib/access-control.ts:43-52 | for a non-admin with an active store, access is granted iff the record's store is the active store, and otherwise denied as cross-tenant |
| AccessControl.SuperAdminPasses | lib/access-control.ts:43-45 | with any active store, the super admin is granted any store and every write is accepted unchanged |
| AccessControl.EnforceStoreId | lib/access-control.ts:56-80 | a missing user or store rejects with InvalidContext; an accepted write carries the data unchanged; the only rejections are InvalidContext and CrossTenantWrite |
| AccessControl.EnforceAgreesWithValidate | lib/access-control.ts:28-80 | a write is accepted exactly when reading its store would be granted |
| AccessControl.EnforceAcceptsActiveStore | lib/access-control.ts:70-79 | a record stamped with the active store's id is always accepted, for every role |
| AccessControl.CanModifyRecord | lib/access-control.ts:83-93 | only a logged-in user may modify; the super admin always may; anyone else may exactly when the record belongs to the active store |
| AccessControl.CanDeleteRecord | lib/access-control.ts:96-99 | deletion is allowed exactly when modification is |
| AccessControl.ValidateIsModifyWithStore | lib/access-control.ts:28-53 | validation grants exactly when an active store is selected and the record may be modified |
| AccessControl.ModifyWithoutValidate | lib/access-control.ts:83-93 | without an active store the super admin may modify a record that validation would still refuse |
| AccessControl.AccessMatchesModifyForBoundUser | lib/access-control.ts:11-19 | for a user working in their own store, store access and record modification agree |
| StoreUtils.CeilDiv | lib/store-utils.ts:29 | the result is the least integer whose multiple of the divisor reaches the dividend |
| StoreUtils.IsStoreAccessible | lib/store-utils.ts:4-18 | a blocked store is never accessible; an active store without expiry always is; otherwise it is accessible iff now is not past the expiry instant |
| StoreUtils.DaysUntilExpiration | lib/store-utils.ts:21-32 | no expiry gives None; otherwise the count is the remaining time rounded up to whole days |
| StoreUtils.ExpirationStatus | lib/store-utils.ts:35-58 | Unlimited exactly without expiry; a soon-expiring store has 0 to 7 days left, an active one more than 7 |
| StoreUtils.StatusPartition | lib/store-utils.ts:49-57 | with an expiry, the status is Expired, ExpiringSoon or Active exactly by the sign and size of the day count |
| StoreUtils.ExpiredExactly | lib/store-utils.ts:49-51 | Expired exactly once a full day has passed since the expiry instant |
| StoreUtils.ExpiredIsInaccessible | lib/store-utils.ts:4-58 | an expired store is past its expiry and not accessible |
| StoreUtils.ExpiringSoonButInaccessible | lib/store-utils.ts:4-58 | during the first day after expiry a store is labelled as expiring in 0 days yet already refuses access |
| StoreUtils.StatusIgnoresActive | lib/store-utils.ts:35-58 | blocking or unblocking a store does not change its expiration label |
| StoreUtils.AccessibleNotBlocked | lib/store-utils.ts:5-7 | an accessible store is an active one |
| Storage.GetProductsByStore | lib/storage.ts:44-49 | exactly the stored products of that store, with their multiplicities, in stored order |
| Storage.GetProductById | lib/storage.ts:52-57 | the first stored product with both that id and that store, or None exactly when there is none |
| Storage.GetCustomersByStore | lib/storage.ts:72-77 | exactly the stored customers of that store, with their multiplicities, in stored order |
| Storage.GetCustomerById | lib/storage.ts:80-85 | the first stored customer with that id and store, or None exactly when there is none |
| Storage.GetSalesByStore | lib/storage.ts:100-105 | exactly the stored sales of that store, with their multiplicities, in stored order |
| Storage.GetSaleById | lib/storage.ts:108-113 | the first stored sale with that id and store, or None exactly when there is none |
| Storage.GetUserByEmail | lib/storage.ts:156-161 | the first stored user with that email, or None exactly when there is none |
| Storage.GetUsersByStore | lib/storage.ts:163-168 | exactly the stored users bound to that store, in stored order |
| Storage.KeyNamesDistinct | lib/storage.ts:3-11 | the seven storage keys are pairwise distinct |
| Storage.BlankReads | lib/storage.ts:15-154 | empty storage reads as no user, no active store and empty collections |
| Storage.SlotRoundTrip | lib/storage.ts:15-29 | what is set for user and active store is read back, and what is cleared reads as absent |
| Storage.CollectionRoundTrip | lib/storage.ts:32-154 | each collection reads back exactly what was last written to it |
| Storage.CollectionWriteFrame | lib/storage.ts:38-155 | writing any one of the five collections changes only its own slot; every other slot and every other reading is as before |
| Storage.UserWriteFrame | lib/storage.ts:15-29 | setting or clearing the current user changes only the user slot; the active store and every collection read back as before |
| Storage.ActiveStoreWriteFrame | lib/storage.ts:128-142 | setting or clearing the active store changes only that slot; the user and every collection read back as before |
| Types.PaymentMethodKey | lib/types.ts:76 | every method is stored under one of the four keys cash, credit, debit, pix |
| Types.PaymentMethodKeyInjective | lib/types.ts:76 | distinct methods are stored under distinct keys |
| AuthContext.Restore | lib/auth-context.tsx:24-40 | the saved user comes back; a saved store comes back only for a non-admin and only while accessible, and an inaccessible one is deleted from storage |
| AuthContext.Login | lib/auth-context.tsx:42-94 | every failure leaves the session untouched; empty credentials fail first; the built-in admin always logs in; a non-admin success is the stored account matching both credentials, and is persisted |
| AuthContext.OwnerLoginOutcomes | lib/auth-context.tsx:68-88 | for a matched owner: a missing store, then a blocked one, then an expired one each give their own error; otherwise the owner and store are selected and persisted |
| AuthContext.UnknownCredentialsFail | lib/auth-context.tsx:61-66 | without a stored account matching both email and password, login fails with invalid credentials |
| AuthContext.OwnerLoginIffAccessible | lib/auth-context.tsx:68-88 | a matched owner logs in exactly when their store exists and is accessible |
| AuthContext.UncheckedRolesLogIn | lib/auth-context.tsx:91-93 | managers and sellers log in regardless of their store's state, with the active store left as it was |
| AuthContext.LoginSelectsOwnStore | lib/auth-context.tsx:83-88 | a successful owner login selects the owner's own store, and it is accessible |
| AuthContext.OwnerLoginSurvivesReload | lib/auth-context.tsx:24-94 | restoring from what an owner login persisted yields the same session while the store stays accessible |
| AuthContext.Logout | lib/auth-context.tsx:96-101 | logout clears user and active store in memory and storage and keeps every collection |
| AuthContext.LogoutSurvivesReload | lib/auth-context.tsx:24-101 | after logout a reload finds nobody logged in |
| AuthContext.RestoreIdempotent | lib/auth-context.tsx:24-40 | restoring again from restored storage changes nothing |
| AuthContext.AdminRestoresWithoutStore | lib/auth-context.tsx:29-38 | a saved super admin is restored with no active store and storage untouched |
| AuthContext.SetActive | lib/auth-context.tsx:103-110 | the chosen store, or none, becomes active in memory and storage; only the active-store slot changes, so the user and all five collections read back as before |
| AuthContext.SelectedStoreSurvivesReload | lib/auth-context.tsx:24-110 | a store a non-admin selects is restored after reload while accessible |
| DashboardUtils.CompletedSales | lib/dashboard-utils.ts:5 | exactly the completed sales, each as many times as stored, in stored order (a subsequence) |
| DashboardUtils.FindProduct | lib/dashboard-utils.ts:16 | the first product with the id, or None exactly when no product has it |
| DashboardUtils.ItemCost | lib/dashboard-utils.ts:14-21 | an item of an unknown product costs nothing; a known one costs its catalogue cost times its quantity |
| DashboardUtils.UncataloguedProfit | lib/dashboard-utils.ts:14-21 | when no item's product is in the catalogue, the profit is the items' whole revenue |
| DashboardUtils.SalesProfitIsItemsProfit | lib/dashboard-utils.ts:14-21 | profit summed sale by sale equals profit of all items together |
| DashboardUtils.ItemsProfitAppend | lib/dashboard-utils.ts:14-21 | profit is additive over concatenated item lists |
| DashboardUtils.LowStockCount | lib/dashboard-utils.ts:24 | the count of low-stock active products, never above the active product count |
| DashboardUtils.DaySales | lib/dashboard-utils.ts:56 | exactly the sales whose creation stamp begins with that date, each as many times as stored, in stored order |
| DashboardUtils.Last7DaysSales | lib/dashboard-utils.ts:48-63 | seven rows, oldest first and ending today, each counting and summing exactly that day's sales |
| DashboardUtils.DaysDisjoint | lib/dashboard-utils.ts:56 | two different dates of equal length never claim the same sale |
| DashboardUtils.TopGroups | lib/dashboard-utils.ts:65-91 | at most n product groups, one per product, by descending revenue, each summing that product's items, and none outranked by a group left out |
| DashboardUtils.TopProducts | lib/dashboard-utils.ts:65-91 | at most five rows, distinct products by descending revenue, each summing that product's items; no product left out earns more than a listed one, and every product is listed when at most five were sold |
| DashboardUtils.TopRowsOfTop | lib/dashboard-utils.ts:84-90 | the rows of the best-selling groups keep their order, products and sums, are outranked by no missing group, and list every group when none was cut |
| DashboardUtils.SalesByPaymentMethod | lib/dashboard-utils.ts:93-110 | one row per method used, every sale's method listed, counts summing to the number of sales and totals to revenue |
| DashboardUtils.PaymentCovered | lib/dashboard-utils.ts:96-104 | every sale's method appears among the rows |
| DashboardUtils.PaymentTotals | lib/dashboard-utils.ts:96-104 | the payment entries sum to the revenue |
| DashboardUtils.CalculateDashboardStats | lib/dashboard-utils.ts:3-46 | counts, revenue and profit are over completed sales only; the breakdowns sum back to those totals; low stock never exceeds the active product count; the low-stock count, the seven days, the best sellers and the payment breakdown are those of the completed sales |
| DashboardUtils.IncompleteSaleIgnored | lib/dashboard-utils.ts:5 | adding a non-completed sale does not change the dashboard |
| Grouping.Tally | lib/dashboard-utils.ts:68-82 | one group per key, in first-occurrence order, each counting and summing exactly its key's entries |
| Grouping.TallyTotals | lib/dashboard-utils.ts:68-82 | group counts sum to the number of entries and group sums to the entries' sums |
| Grouping.SortDesc | lib/dashboard-utils.ts:88-90 | a permutation of the input in non-increasing rank order |
| Grouping.TopBySumB | lib/dashboard-utils.ts:88-90 | at most n groups taken from the input in descending order, all of them when there are at most n |
| Grouping.TopIsTop | lib/dashboard-utils.ts:88-90 | a group left out never outranks a group kept |
| Grouping.SortByKey | app/reports/page.tsx:98 | a permutation of the groups in ascending key order |
| Grouping.SortByKeyKeepsSums | app/reports/page.tsx:98 | sorting the groups keeps every column's sum |
| StoreStatistics.StoreSales | lib/store-stats.ts:13 | exactly the completed sales of the store, each as many times as stored, in stored order |
| StoreStatistics.StoreProducts | lib/store-stats.ts:14 | exactly the active products of the store, each as many times as stored, in stored order |
| StoreStatistics.StoreCustomers | lib/store-stats.ts:15 | exactly the customers of the store, each as many times as stored, in stored order |
| StoreStatistics.Latest | lib/store-stats.ts:21-22 | None exactly for no sales; otherwise a stamp of one of the sales that no other stamp follows |
| StoreStatistics.CalculateStoreStats | lib/store-stats.ts:12-32 | counts and revenue of the store's own completed sales, active products and customers; last activity is absent exactly when the store has no completed sale, else the latest of their stamps |
| StoreStatistics.LatestOfStore | lib/store-stats.ts:21-22 | the latest activity is a stamp of one of the store's completed sales and follows every other |
| StoreStatistics.ForeignSaleIgnored | lib/store-stats.ts:12-32 | a sale of another store, or one not completed, leaves the store's statistics unchanged |
| StoreStatistics.GetAllStoresStats | lib/store-stats.ts:34-43 | one entry per listed store id and no other, each the store's own `calculateStoreStats` figures |
| StoreStatistics.SaleTouchesOnlyItsStore | lib/store-stats.ts:34-43 | recording a sale keeps the stores reported and changes at most its own store's entry, and only when completed |
| ReceiptUtils.ToBase36 | lib/receipt-utils.ts:4 | a non-empty string of base-36 digits |
| ReceiptUtils.Base36RoundTrip | lib/receipt-utils.ts:4 | reading the upper-cased base-36 stamp back gives the timestamp |
| ReceiptUtils.Substring | lib/receipt-utils.ts:5 | JavaScript substring with clamped bounds, never longer than the string |
| ReceiptUtils.GenerateReceiptCode | lib/receipt-utils.ts:3-7 | an upper-case stamp that decodes to the timestamp, a dash, and up to four upper-cased random characters |
| ReceiptUtils.FormatReceiptCode | lib/receipt-utils.ts:9-12 | N/A for a missing or empty code; otherwise the code with each dash turned into a space and every other character kept |
| ReceiptUtils.FormatIdempotent | lib/receipt-utils.ts:9-12 | formatting an already formatted code changes nothing |
| ReceiptUtils.ValidateReceiptCode | lib/receipt-utils.ts:14-16 | true exactly when some sale carries that code; a sale without a code matches nothing |
| ReceiptUtils.ValidateAfterRecord | lib/receipt-utils.ts:14-16 | recording a sale makes its code valid and leaves every other code's answer unchanged |
| InitData.FallbackStoreId | lib/init-data.ts:24-25 | never empty, and the active store's id whenever that id is non-empty |
| InitData.StampProducts | lib/init-data.ts:28-32 | the seed products, each moved to the given store |
| InitData.StampCustomers | lib/init-data.ts:35-39 | the seed customers, each moved to the given store |
| InitData.BackfillProducts | lib/init-data.ts:60-67 | products without a store get the fallback one; the rest are unchanged |
| InitData.BackfillCustomers | lib/init-data.ts:69-76 | customers without a store get the fallback one; the rest are unchanged |
| InitData.BackfillSales | lib/init-data.ts:41-58 | position by position, each sale is the original with a missing code and a missing store filled in |
| InitData.SeedAdmin | lib/init-data.ts:11-22 | the admin is stored only into an empty user list, and nothing else changes |
| InitData.SeedProducts | lib/init-data.ts:28-32 | the stamped seeds are stored only into an empty product list with an active store, and nothing else changes |
| InitData.SeedCustomers | lib/init-data.ts:35-39 | the stamped seeds are stored only into an empty customer list with an active store, and nothing else changes |
| InitData.FixSales | lib/init-data.ts:41-58 | the sales are backfilled, storage is untouched when none needs it, and nothing else changes |
| InitData.FixProducts | lib/init-data.ts:60-67 | the products are backfilled only when one lacks a store, and otherwise storage is untouched |
| InitData.FixCustomers | lib/init-data.ts:69-76 | the customers are backfilled only when one lacks a store, and otherwise storage is untouched |
| InitData.InitUsers | lib/init-data.ts:11-22 | after start-up, an empty user list holds exactly the admin and a non-empty one is unchanged |
| InitData.InitKeepsSessionAndStores | lib/init-data.ts:8-77 | start-up never touches the session slots or the store list |
| InitData.InitProducts | lib/init-data.ts:28-67 | the products end up seeded, left empty without an active store, or backfilled, by the three cases |
| InitData.InitCustomers | lib/init-data.ts:35-76 | the customers end up seeded, left empty without an active store, or backfilled, by the three cases |
| InitData.InitSales | lib/init-data.ts:41-58 | same number of sales, existing codes and stores kept, and none left needing repair |
| InitData.BackfillSalesFacts | lib/init-data.ts:41-58 | backfilling keeps present codes and stores and leaves no sale needing repair |
| InitData.SettledIsFixpoint | lib/init-data.ts:8-77 | on settled storage start-up changes nothing, whatever the clock and random source |
| InitData.InitSettlesSales | lib/init-data.ts:41-58 | after start-up no sale lacks a code or store |
| InitData.InitSettlesProducts | lib/init-data.ts:28-67 | after start-up the product part of the settled condition holds |
| InitData.SeededProductsStay | lib/init-data.ts:28-67 | seeded products survive the later repair steps unchanged |
| InitData.InitSettlesCustomers | lib/init-data.ts:35-76 | after start-up the customer part of the settled condition holds |
| InitData.SeededCustomersStay | lib/init-data.ts:35-76 | seeded customers survive the later repair steps unchanged |
| InitData.InitOwnsProducts | lib/init-data.ts:60-67 | after start-up every product belongs to a store |
| InitData.InitOwnsCustomers | lib/init-data.ts:69-76 | after start-up every customer belongs to a store |
| InitData.InitSettles | lib/init-data.ts:8-77 | start-up leaves storage settled |
| InitData.InitIdempotent | lib/init-data.ts:8-77 | a second start-up, at any time and with any random source, changes nothing |
| AdminStores.StoreOwners | app/admin/stores/page.tsx:57-66 | every entry maps a store id to a listed owner of that store |
| AdminStores.StoreOwnersLastWins | app/admin/stores/page.tsx:57-66 | a store has an entry exactly when some owner claims it, and the entry is its last such owner |
| AdminStores.StoreOwnersListed | app/admin/stores/page.tsx:57-66 | a store has an entry exactly when some owner claims it |
| AdminStores.StoreOwnersLast | app/admin/stores/page.tsx:57-66 | an entry is the last owner claiming that store |
| AdminStores.NewStore | app/admin/stores/page.tsx:77-86 | the new store carries the form's fields, the fresh id and the current instant as both stamps |
| AdminStores.NewOwner | app/admin/stores/page.tsx:88-101 | the owner account carries the form's credentials, the owner role and the new store's id |
| AdminStores.CreateStore | app/admin/stores/page.tsx:73-105 | the store is appended; an owner account is appended only when one was filled in; no other slot changes |
| AdminStores.CreatedOwnerListed | app/admin/stores/page.tsx:57-101 | the owner account just created becomes the store's listed owner |
| AdminStores.CreateWrites | app/admin/stores/page.tsx:73-105 | creation appends exactly the new store and at most one account bound to it |
| AdminStores.UpdateStore | app/admin/stores/page.tsx:107-120 | without a store being edited nothing changes; otherwise the edited store takes the form's fields and a new update stamp, and the others are unchanged |
| AdminStores.UpdateKeepsIds | app/admin/stores/page.tsx:107-120 | an update keeps every store's id and creation stamp and the list's length |
| AdminStores.UnchangedFormOnlyStamps | app/admin/stores/page.tsx:107-120 | saving an unchanged form only refreshes the update stamp |
| AdminStores.DeleteStore | app/admin/stores/page.tsx:122-136 | without a target nothing changes; otherwise the store and every account bound to it go, and no other slot changes |
| AdminStores.StoresWithout | app/admin/stores/page.tsx:125 | exactly the other stores, each as many times as stored, in order |
| AdminStores.UsersWithout | app/admin/stores/page.tsx:130 | exactly the accounts not bound to that store, each as many times as stored, in order |
| AdminStores.DeleteWrites | app/admin/stores/page.tsx:122-136 | deletion stores exactly the other stores and the accounts of other stores |
| AdminStores.DeleteUndoesCreate | app/admin/stores/page.tsx:73-136 | deleting a freshly created store restores the previous stores and accounts |
| AdminStores.FilterStores | app/admin/stores/page.tsx:138-142 | exactly the stores whose name or email contains the query, ignoring case, each as many times as stored, in order |
| AdminStores.EmptyQueryListsAll | app/admin/stores/page.tsx:138-142 | an empty query lists every store |
| AdminStores.CountStores | app/admin/stores/page.tsx:144-149 | the counters are the numbers of accessible, blocked and expired stores; accessible plus blocked, and accessible plus expired, never exceed the number of stores |
| AdminStores.CountsDisjoint | app/admin/stores/page.tsx:144-149 | no store is counted both accessible and blocked, or both accessible and expired |
| NewSale.Catalogue | app/sales/new/page.tsx:32-40 | exactly the active products of the active store, each as many times as stored, in stored order |
| NewSale.SearchCatalogue | app/sales/new/page.tsx:42-48 | exactly the products whose name or SKU contains the query, ignoring case, each as many times as stored, in order |
| NewSale.LineOf | app/sales/new/page.tsx:51 | the first cart line of the product, or None exactly when it is not in the cart |
| NewSale.CatalogueEntry | app/sales/new/page.tsx:93 | the first catalogue product with the id, or None exactly when none has it |
| NewSale.NewLine | app/sales/new/page.tsx:79-86 | a new line holds one unit at the product's price with no discount |
| NewSale.Bump | app/sales/new/page.tsx:60-70 | the product's line gets one more unit and its total is recomputed; other lines are unchanged |
| NewSale.AddToCart | app/sales/new/page.tsx:50-90 | an out-of-stock product or a line already at stock leaves the cart unchanged; otherwise a new line is appended or the existing one bumped |
| NewSale.RemoveFromCart | app/sales/new/page.tsx:119-121 | exactly the other lines remain, in order |
| NewSale.SetQuantity | app/sales/new/page.tsx:106-116 | the product's line takes the quantity and a recomputed total; other lines are unchanged |
| NewSale.UpdateQuantity | app/sales/new/page.tsx:92-117 | an unknown product or a quantity above stock changes nothing; zero or less removes the line; otherwise the quantity is set |
| NewSale.Total | app/sales/new/page.tsx:123-129 | the total plus the global discount is the sum of the line totals |
| NewSale.EmptyCartOk | app/sales/new/page.tsx:50-121 | the empty cart is valid, where valid means one line per product and each line undiscounted, at least one unit and within a catalogue product's stock |
| NewSale.AddKeepsCartOk | app/sales/new/page.tsx:50-90 | adding a catalogue product keeps the cart valid |
| NewSale.RemoveKeepsCartOk | app/sales/new/page.tsx:119-121 | removing a line keeps the cart valid |
| NewSale.UpdateKeepsCartOk | app/sales/new/page.tsx:92-117 | changing a quantity keeps the cart valid |
| NewSale.AddRaisesSubtotal | app/sales/new/page.tsx:50-90 | adding a product either leaves the cart alone or raises the subtotal by one unit price: the product's for a new line, the existing line's otherwise |
| NewSale.AddThenRemove | app/sales/new/page.tsx:50-121 | removing a product just added to a cart without it gives the cart back |
| NewSale.BuildSale | app/sales/new/page.tsx:138-154 | the sale records the cart, seller, customer, notes and payment, is completed, and its total is the subtotal less the discount |
| NewSale.Destock | app/sales/new/page.tsx:168-180 | each of the store's products loses the quantity sold and is stamped; every other product is unchanged |
| NewSale.Persist | app/sales/new/page.tsx:156-180 | a rejected sale changes nothing; an accepted one is appended to the sales and the products are destocked |
| NewSale.Submit | app/sales/new/page.tsx:131-184 | without user, store or cart nothing changes; otherwise the sale is built for the active store and persisted |
| NewSale.SubmitRecordsSale | app/sales/new/page.tsx:131-184 | a valid submission appends exactly one completed sale of the active store |
| NewSale.DestockStaysNonNegative | app/sales/new/page.tsx:168-180 | selling a valid cart never drives a product's stock below zero |
| ProductsPage.Categories | app/products/page.tsx:39-42 | all first, then each category used by some product exactly once, in first-use order |
| ProductsPage.FilterProducts | app/products/page.tsx:44-55 | exactly the products matching both the search term and the category, each as many times as stored, in order |
| ProductsPage.UnfilteredListsAll | app/products/page.tsx:44-55 | an empty search with category all lists every product |
| ProductsPage.NewProduct | app/products/page.tsx:87-98 | the created product carries the form's fields, the draft's store, the fresh id and the current instant |
| ProductsPage.EditedProduct | app/products/page.tsx:68-86 | the edit takes the form's fields and keeps id and creation stamp |
| ProductsPage.Overwrite | app/products/page.tsx:75-85 | every product with the id is replaced by its edit, the rest are unchanged |
| ProductsPage.SaveProduct | app/products/page.tsx:57-100 | without user or store nothing changes; a cross-tenant edit is refused; otherwise the product is created or every copy with its id overwritten; only products change |
| ProductsPage.EditCrossesTenants | app/products/page.tsx:75-85 | an accepted edit also overwrites a same-id product of another store |
| ProductsPage.WithoutId | app/products/page.tsx:111 | exactly the products with another id, each as many times as stored, in order |
| ProductsPage.WithoutFreshId | app/products/page.tsx:111 | removing a just-appended id gives the list back |
| ProductsPage.DeleteProduct | app/products/page.tsx:102-116 | a denied or absent target changes nothing; otherwise every product with its id is removed |
| ProductsPage.CreateAppends | app/products/page.tsx:87-98 | creating appends exactly one product of the active store |
| ProductsPage.DeleteUndoesCreate | app/products/page.tsx:57-116 | deleting a freshly created product restores the product list |
| CustomersPage.FilterCustomers | app/customers/page.tsx:36-46 | exactly the customers whose name, email, phone or CPF contains the term, each as many times as stored, in order |
| CustomersPage.EmptySearchListsAll | app/customers/page.tsx:36-46 | an empty search lists every customer |
| CustomersPage.AbsentFieldsNeverMatch | app/customers/page.tsx:40-43 | a customer with only a non-matching name is never found |
| CustomersPage.NewCustomer | app/customers/page.tsx:78-89 | the created customer carries the form's fields, the draft's store, the fresh id and the current instant |
| CustomersPage.EditedCustomer | app/customers/page.tsx:59-77 | the edit takes the form's fields and keeps id and creation stamp |
| CustomersPage.Overwrite | app/customers/page.tsx:66-76 | every customer with the id is replaced by its edit, the rest are unchanged |
| CustomersPage.SaveCustomer | app/customers/page.tsx:48-91 | without user or store nothing changes; a cross-tenant edit is refused; otherwise the customer is created or overwritten; only customers change |
| CustomersPage.ForeignEditRefused | app/customers/page.tsx:59-64 | a non-admin cannot edit a customer of another store |
| CustomersPage.WithoutId | app/customers/page.tsx:102 | exactly the customers with another id, each as many times as stored, in order |
| CustomersPage.WithoutFreshId | app/customers/page.tsx:102 | removing a just-appended id gives the list back |
| CustomersPage.DeleteCustomer | app/customers/page.tsx:93-107 | a denied or absent target changes nothing; otherwise every customer with its id is removed |
| CustomersPage.CreateAppends | app/customers/page.tsx:78-89 | creating appends exactly one customer of the active store |
| CustomersPage.DeleteUndoesCreate | app/customers/page.tsx:48-107 | deleting a freshly created customer restores the customer list |
| ReportsPage.ReportSales | app/reports/page.tsx:35-52 | exactly the completed sales, of every store, whose instant lies within the period's given bounds, each as many times as stored, in order |
| ReportsPage.UnboundedPeriodIsCompleted | app/reports/page.tsx:35-52 | with no bounds the report covers every completed sale |
| ReportsPage.WiderPeriodKeepsSales | app/reports/page.tsx:35-52 | widening the period never loses a sale |
| ReportsPage.Summarise | app/reports/page.tsx:55-66 | count, revenue and profit of the filtered sales, with the average as revenue over count |
| ReportsPage.AverageTicket | app/reports/page.tsx:57 | the average times the count is the revenue, and 0 for no sales |
| ReportsPage.AverageWithinTotals | app/reports/page.tsx:55-57 | the average ticket lies between the smallest and largest sale total |
| ReportsPage.DatePart | app/reports/page.tsx:73 | the stamp's prefix before its first T |
| ReportsPage.DateOfStamp | app/reports/page.tsx:73 | a date followed by T and a time gives back the date |
| ReportsPage.DayTotals | app/reports/page.tsx:69-99 | the per-sale day entries sum to revenue and to profit |
| ReportsPage.SalesByDay | app/reports/page.tsx:69-99 | distinct dates in ascending order, every sale's date listed, and counts, revenue and profit summing to the period's totals |
| ReportsPage.DaysCovered | app/reports/page.tsx:69-99 | every filtered sale's date has a row |
| ReportsPage.ReportTopProducts | app/reports/page.tsx:102-124 | at most ten rows by descending revenue, each summing one product's items, none outranked by a product left out, all listed when at most ten were sold; the rows are those of the best-selling groups, one per distinct product |
| ReportsPage.SalesByPayment | app/reports/page.tsx:127-152 | rows under distinct method labels, one for each method some sale used and no other; each row's count and revenue are those of the sales paid by the labelled method; the rows sum to the period's totals |
| ReportsPage.PaymentRowFromSale | app/reports/page.tsx:127-152 | a row of the method grouping is labelled with a method some sale used and carries that method's count and sum |
| ReportsPage.PaymentRowsNamed | app/reports/page.tsx:147-151 | distinct method keys are shown under distinct names |
| ReportsPage.BuildReport | app/reports/page.tsx:22-152 | the summary and the three tables are those of the period's completed sales; the day and payment breakdowns both sum back to the summary's count and revenue, and days to its profit |
| SaleLists.StoreSalesNewestFirst | app/sales/page.tsx:24-30 | without an active store nothing; otherwise a permutation of the store's sales, newest first |
| SaleLists.ShownSales | app/sales/page.tsx:32-35 | all sales, or exactly those of the chosen status, each as many times as stored, in order |
| SaleLists.FiltersSplitHistory | app/sales/page.tsx:32-35 | no pending sale passes a status filter, and the two filters together show at most all sales |
| SaleLists.SearchReceipts | app/receipts/page.tsx:30-35 | exactly the sales whose code, customer or seller contains the term, ignoring case, each as many times as stored, in order |
| SaleLists.EmptySearchListsAll | app/receipts/page.tsx:30-35 | an empty search lists every receipt |
| SaleLists.CodeFindsReceipt | app/receipts/page.tsx:30-35 | typing a receipt's own code in any case finds it |
| Labels.StatusLabel | app/sales/page.tsx:50-61 | every status has a non-empty label |
| Labels.PaymentLabel | app/sales/page.tsx:63-76 | every method has a non-empty label |
| Labels.StatusLabelsDistinct | app/receipts/page.tsx:47-61 | distinct statuses get distinct labels and distinct badges |
| Labels.PaymentLabelsDistinct | app/receipts/page.tsx:37-45 | distinct methods get distinct labels |
| Labels.KeyMethod | app/reports/page.tsx:140-145 | the method stored under a key, or None exactly when no method uses it |
| Labels.KeyMethodRoundTrip | app/reports/page.tsx:140-145 | reading back a stored method key gives the method |
| Labels.MethodNameOrKey | app/reports/page.tsx:150 | a known key shows its method's label; an unknown key shows itself |

## Left out

- Browser plumbing is left out: JSON serialisation, server-side guards, React state and effects, alerts, console output and router navigation. Storage is a total map of typed slots, so a corrupt JSON value is not representable.
- Display formatting is left out: `Intl` currency and date formatting, the CSS classes of `getStatusColor`, and the receipt badge components beyond their variant.
- The form dialogs, the login, dashboard and receipt-detail pages, and the seed data file are not part of this model. The seeds are a parameter of `InitData`.
- Money is an integer. The source uses floating point, so rounding of prices, discounts and totals is not modelled. The margin and percentage columns of the reports page are left out.
- The product image field is left out, as nothing reads it.
- `parseInt`/`parseFloat` yielding NaN from malformed form input, and invalid `Date` values, are not modelled. Form values reach the model already parsed.
- The admin page's total revenue over `Object.values` of all stats (app/admin/stores/page.tsx:151) is left out; it is a plain sum of the per-store revenues.
- Alert and confirmation messages are modelled as error tags or as the unchanged storage, not as text. Clearing the search box after a sale is left out.
- ReportsPage.ReportSales: the end date's local end-of-day and the parsing of the period's text are given as integer bounds, not computed.
- DashboardUtils.Last7DaysSales: the calendar date of "today minus i days" is the parameter `dayKey`, not computed from a clock.
- Grouping.SortDesc: stated as a sorted permutation. The stability of JavaScript's sort, the order among equal ranks, is not stated. The same holds for Grouping.SortByKey.
- Grouping.TopBySumB: the order among groups of equal revenue, and so which of them survive the cut, is not stated; it follows the stable sort of the source but is not proved to.
- SaleLists.StoreSalesNewestFirst: the order among sales with the same creation stamp is not stated.
- DashboardUtils.TopGroups: which of several equal-revenue products make the cut is not stated. The same holds for DashboardUtils.TopProducts and ReportsPage.ReportTopProducts.
- ReceiptUtils.ValidateReceiptCode: a sale with no code and one whose code is the empty text are the same record here, so the empty code never validates; the source would match a stored empty code, which the application never writes.
- StoreStatistics.Latest: `localeCompare` is modelled as code-unit lexicographic order, and the latest stamp is stated as a maximum rather than as the first element of a sorted copy.
- Seqs.Lower: case-insensitive search folds ASCII letters only. Unicode case folding is not modelled.
- Payment methods and statuses outside the enumerations cannot be represented. The `default` branches of the label switches are therefore unreachable and not modelled. Object-prototype keys of the methods table are not modelled either.
- Concurrency between tabs and storage events is not modelled.
