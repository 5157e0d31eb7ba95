# Inventory ledger, transaction feeds and reorder report

This project models in Dafny the core of the FMV inventory back end, a Laravel API. The model has three parts.

- **The restock ledger** (`ledger.dfy`, module `Ledger`).
  - It covers the products table and the product-restock-orders table, and the controller actions that change them.
  - The actions are product create, update and destroy, and restock-order create, update and destroy. The reads `show` and `restockOrderByProductId` are also modelled.
  - The database is the class `Inventory`, whose methods update its tables in place. Each action is atomic: it either applies its whole effect or returns an error and changes nothing.
  - Each method's new state is tied to a transition function on a `Db` value.
  - A product's `quantity` is a running total. The ledger is *balanced* when every product's quantity equals the sum of its restock orders' quantities.
  - The lemmas say which actions keep the ledger balanced and which break it.
- **The transaction feeds** (`feed.dfy`, module `TransactionFeed`, and `product_history.dfy`, module `ProductHistory`).
  - These are the three sources that are merged into one list:
    - restock orders;
    - settled deliveries, with status `S`;
    - walk-in sales, with sale type 2.
  - Each source is fetched only when its type is requested, and is filtered by the query.
  - Outgoing movements get a `date_in`: the product's latest restock at or before them, or NULL.
  - The list is sorted newest first by a stable sort, then paginated with PHP `array_slice` semantics. The response reports the total, the last page and the restocked quantity.
- **The reorder report** (`reorder.dfy`, module `Reorder`).
  - A product needs reordering when its stock is at or below 14 days of its average daily delivered quantity plus its category's safety stock.
  - The average covers successful deliveries (status OD, P or S) in the last 30 days. The safety stock defaults to 70.
  - Only flagged products are listed, least stock first, and one `forPage` page is returned.

`schema.dfy` (module `Schema`) holds the rows of the tables. `collections.dfy` (module `Collections`) holds the Laravel collection operations: filter and project, `sum`, the stable `sortByDesc`, `slice` and `forPage`, `ceil(total / perPage)` and `distinct`. `text.dfy` (module `Text`) holds SQL `TRIM`, PHP `trim`, PHP string truthiness and `LIKE '%term%'`.

Time is a parameter. `now` is passed in, timestamps are integer seconds and calendar days are `DayOf`. Date formatting is the parameter `fmt`.

## Model

Source paths are relative to the repository root.

| member | source | states |
|---|---|---|
| Ledger.RestockedRemove | app/Http/Controllers/API/Product/ProductRestockController.php:225 | the restock total of a product (`Restocked`, the `sum('quantity')` of its orders) does not depend on the order of summation: any one order can be taken out, and the total is its share plus the total of the rest |
| Ledger.RestockedUnreferenced | app/Http/Controllers/API/Product/ProductRestockController.php:32-37 | a product no order refers to has restocked 0, as Laravel's `sum` of no rows is 0 |
| Ledger.RestockedCoversOrder | app/Http/Controllers/API/Product/ProductRestockController.php:225 | with positive order quantities (the `min:1` rule), a product's restock total is at least the quantity of any one of its orders |
| Ledger.ShowProduct | app/Http/Controllers/API/Product/ProductController.php:76-85 | the product when the id exists, NotFound (404) otherwise |
| Ledger.ShowRestockOrder | app/Http/Controllers/API/Product/ProductRestockController.php:215-242 | NotFound for a missing order, Failed when its product is missing; otherwise the order, its product's name and stock, and the restock total, which is the sum of the quantities of that product's orders (`Restocked`); the total covers the order's quantity and equals the stock when the ledger is balanced |
| Ledger.RestockOrdersOfProduct | app/Http/Controllers/API/Product/ProductRestockController.php:22-48 | NotFound for a missing product; otherwise exactly the ids of the orders of that product, its name and stock, and the restock total, which is the sum of its orders' quantities (`Restocked`): 0 when it has no orders and equal to the stock when balanced |
| Ledger.Inventory.CreateProduct | app/Http/Controllers/API/Product/ProductController.php:18-70 | refused (400) exactly when validation fails (category exists, name non-empty, at most 255 long and not taken, quantity at least 1, user exists), changing nothing; otherwise inserts the product under a fresh id plus one restock order logging its initial quantity, and keeps a balanced ledger balanced |
| Ledger.ProductAddedKeepsBalance | app/Http/Controllers/API/Product/ProductController.php:46-53 | a new product logged with one restock order of its initial quantity leaves a balanced ledger balanced |
| Ledger.Inventory.UpdateProduct | app/Http/Controllers/API/Product/ProductController.php:87-148 | Invalid (422) exactly when validation fails, NotFound (404) exactly for a valid request for a missing product, and no change in either case; a valid request for an existing product always succeeds (200), the product becoming the patch laid over it, and the row is written exactly when some field differs |
| Ledger.Changes | app/Http/Controllers/API/Product/ProductController.php:117-136 | `$updateData` is empty exactly when no field differs, and writing only it has the effect of the whole patch |
| Ledger.NoDifferenceNoChange | app/Http/Controllers/API/Product/ProductController.php:134-136 | the patch changes the product exactly when some field differs |
| Ledger.PatchedKeepsNames | app/Http/Controllers/API/Product/ProductController.php:93-103 | a patch whose name no other product holds keeps product names unique |
| Ledger.OwnNameAccepted | app/Http/Controllers/API/Product/ProductController.php:98-101 | a product may be updated to its own name (the uniqueness check excludes its own id) |
| Ledger.OthersNameRefused | app/Http/Controllers/API/Product/ProductController.php:98-101 | a name another product holds is refused on update |
| Ledger.QuantityPatchDrifts | app/Http/Controllers/API/Product/ProductController.php:129-135 | setting a product's quantity directly moves it off its restock total by exactly the change |
| Ledger.QuantityPatchBreaksBalance | app/Http/Controllers/API/Product/ProductController.php:129-135 | so a quantity edit that changes the value always unbalances a balanced ledger |
| Ledger.PatchWithoutQuantityKeepsBalance | app/Http/Controllers/API/Product/ProductController.php:117-136 | a patch without a quantity keeps a balanced ledger balanced |
| Ledger.Inventory.DestroyProduct | app/Http/Controllers/API/Product/ProductController.php:154-164 | NotFound and no change for a missing product; otherwise the row is deleted, its restock orders stay, and balance is kept |
| Ledger.Inventory.CreateRestockOrder | app/Http/Controllers/API/Product/ProductRestockController.php:168-210 | refused (400) exactly when validation fails (user and product exist, quantity at least 1), changing nothing; otherwise inserts the order under a fresh id and adds its quantity to its product, keeping balance |
| Ledger.RestockAddedKeepsDrift | app/Http/Controllers/API/Product/ProductRestockController.php:183-188 | adding an order and its quantity to the product leaves every product exactly as far off its restock total as before |
| Ledger.RestockAddedKeepsBalance | app/Http/Controllers/API/Product/ProductRestockController.php:183-188 | so creating an order keeps a balanced ledger balanced |
| Ledger.RestockChanged | app/Http/Controllers/API/Product/ProductRestockController.php:266-274 | the update as written: the order is overwritten and its old product's quantity loses the old quantity and gains the new one, while every other product, including a different product the order now names, is left as it was |
| Ledger.Inventory.UpdateRestockOrder | app/Http/Controllers/API/Product/ProductRestockController.php:245-282 | Invalid exactly when validation fails, NotFound for a missing order, Failed when the order's product is missing, with no change; otherwise the order is overwritten and the old quantity moves off the old product and the new quantity onto the order's new product (the corrected update, see Findings), keeping balance |
| Ledger.RestockChangedInPlaceKeepsDrift | app/Http/Controllers/API/Product/ProductRestockController.php:266-274 | an update that keeps the order on its product changes the product's quantity and its restock total by the same amount |
| Ledger.RestockChangedInPlaceKeepsBalance | app/Http/Controllers/API/Product/ProductRestockController.php:266-274 | so such an update keeps a balanced ledger balanced |
| Ledger.RestockMovedDrifts | app/Http/Controllers/API/Product/ProductRestockController.php:266-274 | the update as written, moving an order to another product, leaves the old product the new quantity above its restock total and the new product that much below |
| Ledger.RestockMovedBreaksBalance | app/Http/Controllers/API/Product/ProductRestockController.php:266-274 | so, as written, moving an order of positive quantity unbalances a balanced ledger |
| Ledger.RestockRebalancedKeepsBalance | app/Http/Controllers/API/Product/ProductRestockController.php:266-274 | the corrected update keeps a balanced ledger balanced whatever product the order is moved to |
| Ledger.RebalancedAgreesInPlace | app/Http/Controllers/API/Product/ProductRestockController.php:266-274 | when the product does not change, the corrected update and the one as written are the same |
| Ledger.Inventory.DestroyRestockOrder | app/Http/Controllers/API/Product/ProductRestockController.php:285-309 | NotFound for a missing order, Failed when its product is missing, with no change; otherwise the quantity is taken off the product and the order deleted, keeping balance |
| Ledger.RestockRemovedKeepsBalance | app/Http/Controllers/API/Product/ProductRestockController.php:296-301 | deleting an order and taking its quantity off its product keeps a balanced ledger balanced |
| Collections.SortDesc | app/Http/Controllers/API/Inventory/View_Inventory.php:233 | `sortByDesc` returns a permutation of its input in descending key order |
| Collections.SortDescStable | app/Http/Controllers/API/Inventory/View_Inventory.php:233 | elements with equal keys keep their input order (the sort is stable) |
| Collections.Slice | app/Http/Controllers/API/Inventory/View_Inventory.php:246 | `array_slice`: nothing for an offset past the end; otherwise the contiguous run of the input that starts at the offset (counted back from the end when negative, never before the first row) and holds `length` rows or as many as remain, or, for a negative length, stops that many rows before the end |
| Collections.SliceIsPage | app/Http/Controllers/API/Inventory/View_Inventory.php:245-246 | from page 1 on, slicing at `(page - 1) * perPage` gives that page's rows in order |
| Collections.SliceOfPageZero | app/Http/Controllers/API/Inventory/View_Inventory.php:244-246 | page 0 gives a negative offset, which `array_slice` counts from the end, so it shows the last `perPage` rows |
| Collections.ForPage | app/Http/Controllers/API/Product/ProductRestockController.php:94 | `forPage` returns only rows of the input, and from page 1 on exactly that page, the rows from `(page - 1) * perPage` on |
| Collections.ForPageBeforeFirst | app/Http/Controllers/API/Product/ProductRestockController.php:94 | `forPage` clamps the offset at 0, so every page up to 1 is the first page |
| Collections.Page | app/Http/Controllers/API/Inventory/View_Inventory.php:246 | a page holds the rows from `(page - 1) * perPage` on, at most `perPage` of them, each at its offset |
| Collections.PageEmptyIffPastLast | app/Http/Controllers/API/Inventory/View_Inventory.php:246-256 | a page is empty exactly when its number is past the reported last page |
| Collections.PagesReassemble | app/Http/Controllers/API/Inventory/View_Inventory.php:246-256 | reading the pages in turn gives back the whole list, each row once |
| Collections.LastPage | app/Http/Controllers/API/Inventory/View_Inventory.php:256 | `ceil(total / perPage)` is the least integer at or above the quotient, for either sign of a non-zero page size |
| Collections.SlicedListing | app/Http/Controllers/API/Inventory/View_Inventory.php:243-259 | no listing for page size 0 (division by zero); otherwise it reports total, page size and page as given and the last page as the ceiling; from page 1 on the data is that page and is empty exactly past the last page; page 0 shows the tail |
| Collections.PagedListing | app/Http/Controllers/API/Product/ProductRestockController.php:94-104 | the same counts with `forPage`: from page 1 on the data is that page; any page up to 1 is the first page |
| Collections.SumAppend | app/Http/Controllers/API/Inventory/View_Inventory.php:157 | the sum over a merged list is the sum of the sums of its parts |
| Collections.SumPermutation | app/Http/Controllers/API/Inventory/View_Inventory.php:157 | a sum does not depend on the order of the rows |
| Collections.Distinct | app/Http/Controllers/API/Product/ProductRestockController.php:389 | `distinct` keeps exactly the input's elements, without repeats |
| Collections.FilterMapAscending | app/Http/Controllers/API/Product/ProductRestockController.php:60-88 | filtering rows that are already in ascending order keeps them ascending |
| Text.Trim | app/Http/Controllers/API/Inventory/View_Inventory.php:119 | the result is the middle of the input, with no strippable character at either end, and only strippable characters cut away |
| Text.TrimIdempotent | app/Http/Controllers/API/Inventory/View_Inventory.php:119 | trimming a trimmed string changes nothing |
| TransactionFeed.LatestRestock | app/Http/Controllers/API/Inventory/View_Inventory.php:177-181 | the `MAX(created_at)` subquery is NULL exactly when the product has no restock at or before the moment; otherwise it is the creation time of such a restock, and no earlier than any other |
| TransactionFeed.RestockEntry | app/Http/Controllers/API/Inventory/View_Inventory.php:132-147 | a restock row exists exactly when the product and category joins find rows; it carries the product's id and name, the category name trimmed, the order's quantity valued at the original price, no delivery id, damages, price or status, and is in and out when placed |
| TransactionFeed.DeliveryEntry | app/Http/Controllers/API/Inventory/View_Inventory.php:163-186 | a delivery row exists exactly for a settled line whose joins find rows; it carries the product's id and name, the trimmed category name, the delivery id, quantity and damages of the line, and the price of its purchase-order line, valued at quantity times that price, out at the delivery and in at the latest restock before it |
| TransactionFeed.WalkInEntry | app/Http/Controllers/API/Inventory/View_Inventory.php:200-221 | a walk-in row exists exactly for a sale-type-2 line whose joins find rows; it carries the product's id and name, the trimmed category name and the line's quantity valued at the original price, no delivery id, damages, price or status, out at the order and in at the latest restock before it |
| TransactionFeed.Pricing | app/Http/Controllers/API/Inventory/View_Inventory.php:163-167 | the corrected join: exactly the lines of the delivery's purchase order for the delivery's own product |
| TransactionFeed.PricedDeliveries | app/Http/Controllers/API/Inventory/View_Inventory.php:163-167 | every joined pair is a delivery line with a line of its purchase order for its product |
| TransactionFeed.PricedDeliveriesComplete | app/Http/Controllers/API/Inventory/View_Inventory.php:163-167 | every such pair is joined |
| TransactionFeed.PricedDeliveriesAppend | app/Http/Controllers/API/Inventory/View_Inventory.php:163-167 | the join of two lists of delivery lines is the join of the first followed by the join of the second |
| TransactionFeed.PricedOneDelivery | app/Http/Controllers/API/Inventory/View_Inventory.php:163-167 | the join of one delivery line is the list of its purchase-order lines for its product |
| TransactionFeed.PricingOfOneLine | app/Http/Controllers/API/Inventory/View_Inventory.php:163-167 | one delivery line and one purchase-order line are joined exactly when the purchase order and the product match |
| TransactionFeed.PricingAppend | app/Http/Controllers/API/Inventory/View_Inventory.php:163-167 | pricing a delivery line against two lists of purchase-order lines gives the pairs of the first, then those of the second |
| TransactionFeed.RestockRows | app/Http/Controllers/API/Inventory/View_Inventory.php:132-147 | the restock query: only restock rows the filter keeps, each the row of one of the orders, and every order whose joins find rows and whose row is kept |
| TransactionFeed.RestockRowsByRow | app/Http/Controllers/API/Inventory/View_Inventory.php:132-147 | one order gives its row exactly when the joins find rows and the filter keeps it, and nothing otherwise; the rows of two lists of orders are those of the first followed by those of the second |
| TransactionFeed.DeliveryRows | app/Http/Controllers/API/Inventory/View_Inventory.php:163-186 | the delivery query: only settled delivery rows the filter keeps, each the row of one joined pair of a delivery line and a purchase-order line, and every such pair whose row is kept |
| TransactionFeed.DeliveryRowsByDelivery | app/Http/Controllers/API/Inventory/View_Inventory.php:163-186 | the delivery rows of two lists of delivery lines are those of the first followed by those of the second |
| TransactionFeed.DeliveryRowsOfOnePair | app/Http/Controllers/API/Inventory/View_Inventory.php:163-186 | one delivery line with one purchase-order line gives its row exactly when they share purchase order and product, the row exists and the filter keeps it, and nothing otherwise |
| TransactionFeed.DeliveryRowsByLine | app/Http/Controllers/API/Inventory/View_Inventory.php:163-186 | for one delivery line, the rows priced by two lists of purchase-order lines are those of the first followed by those of the second |
| TransactionFeed.WalkInRows | app/Http/Controllers/API/Inventory/View_Inventory.php:199-227 | the walk-in query: only walk-in rows the filter keeps, each the row of one sale line, and every sale line whose row exists and is kept |
| TransactionFeed.WalkInRowsByRow | app/Http/Controllers/API/Inventory/View_Inventory.php:199-227 | one sale line gives its row exactly when it is of sale type 2, its joins find rows and the filter keeps it, and nothing otherwise; the rows of two lists of lines are those of the first followed by those of the second |
| TransactionFeed.Collect | app/Http/Controllers/API/Inventory/View_Inventory.php:131-230 | each source holds only rows of its kind that pass the filters (deliveries settled); every restock row is the row of a restock order, every delivery row that of a joined delivery line and purchase-order line, every walk-in row that of a sale line; a source whose type is not requested is empty, and one that is requested has as many rows as its query returns (`RestockRows`, `DeliveryRows`, `WalkInRows`) |
| TransactionFeed.CollectComplete | app/Http/Controllers/API/Inventory/View_Inventory.php:131-230 | every requested source row that the joins find and the filters keep is collected |
| TransactionFeed.Newest | app/Http/Controllers/API/Inventory/View_Inventory.php:233 | the feed is a permutation of the merged sources, newest `date_out` first |
| TransactionFeed.TiesKeepSourceOrder | app/Http/Controllers/API/Inventory/View_Inventory.php:233 | rows with the same `date_out` stay in source order: restocks, then deliveries, then walk-ins |
| TransactionFeed.RestockTotalOfFeed | app/Http/Controllers/API/Inventory/View_Inventory.php:156-158 | the reported restocked quantity is what the feed's restock rows add up to, in any order |
| TransactionFeed.RestockTotalOfSources | app/Http/Controllers/API/Inventory/View_Inventory.php:156-158 | for sources whose rows are all of their own kind, the restock rows of the sorted feed add up to the restocked quantity of the restock source |
| TransactionFeed.DatesInOrder | app/Http/Controllers/API/Inventory/View_Inventory.php:142-217 | every row's `date_in` is no later than its `date_out`; a restock is in when it is out; other rows are in at the product's latest restock before them, or never |
| TransactionFeed.Formatted | app/Http/Controllers/API/Inventory/View_Inventory.php:236-240 | formatting maps both dates through the format, keeps a NULL `date_in` NULL and changes no other column |
| TransactionFeed.FormattedAll | app/Http/Controllers/API/Inventory/View_Inventory.php:236-240 | every row is formatted, in place |
| TransactionFeed.OfProduct | app/Http/Controllers/API/Inventory/View_Inventory.php:20-79 | each source holds only rows of its own kind and of product p, and none of them carries a delivery id, damages or delivery status, since the three by-product queries select none of those columns; each source has as many rows as the corresponding query restricted to p returns |
| TransactionFeed.ByProductRestocks | app/Http/Controllers/API/Inventory/View_Inventory.php:21-34 | restock rows of product p without delivery columns, each the row of one restock order, as many as the restock query for p returns |
| TransactionFeed.ByProductDeliveries | app/Http/Controllers/API/Inventory/View_Inventory.php:40-60 | delivery rows of product p without delivery id, damages or status, each the row of one joined delivery line and purchase-order line, as many as the delivery query for p returns |
| TransactionFeed.ByProductWalkIns | app/Http/Controllers/API/Inventory/View_Inventory.php:65-88 | walk-in rows of product p without delivery columns, each the row of one sale line, as many as the walk-in query for p returns |
| TransactionFeed.ByProductRows | app/Http/Controllers/API/Inventory/View_Inventory.php:46-58 | each row keeps its product and kind and loses the delivery id, damages and status, one output row per input row, every input row represented and nothing else |
| TransactionFeed.OfProductComplete | app/Http/Controllers/API/Inventory/View_Inventory.php:20-79 | every joined restock order of p, every settled delivery line of p with a purchase-order line for p, and every sale-type-2 line of p is in the by-product feed |
| TransactionFeed.ViewTransactionByProductId | app/Http/Controllers/API/Inventory/View_Inventory.php:13-110 | no listing for page size 0; otherwise the total counts all of the product's rows, which is the sum of what the three by-product queries return; the last page is the ceiling of total over page size; from page 1 on the data is that page of the rows, newest first, and page 0 shows the last `perPage` rows |
| TransactionFeed.ProductFeedIsOneProduct | app/Http/Controllers/API/Inventory/View_Inventory.php:35-87 | every row of the product's feed is that product's |
| TransactionFeed.CategoryFilter | app/Http/Controllers/API/Inventory/View_Inventory.php:128 | the dropdown categories when any are selected; otherwise a filter exactly when searching by category with a truthy term |
| TransactionFeed.Requested | app/Http/Controllers/API/Inventory/View_Inventory.php:131 | `in_array` gating: "all" fetches every kind; otherwise a kind is fetched exactly when its tag is among the requested types |
| TransactionFeed.InDates | app/Http/Controllers/API/Inventory/View_Inventory.php:149-150 | `whereDate` bounds: a moment passes exactly when it is at or after the start of day `date_from` and before the end of day `date_to`, each bound applying only when given |
| TransactionFeed.Admits | app/Http/Controllers/API/Inventory/View_Inventory.php:149-153 | an admitted row is within the dates unless it is a walk-in; it has a category in the category filter when there is one; when searching by product it contains the term in its product name, if there is no category filter or it is not a walk-in; a walk-in is admitted under a category filter exactly when its category is in it, whatever its name; a query without filters admits every row |
| TransactionFeed.Reported | app/Http/Controllers/API/Inventory/View_Inventory.php:233-259 | no report for page size 0; otherwise the restocked quantity of the restock rows, the count of all rows, the last page as the ceiling of that count over the page size, from page 1 on exactly that page of the formatted rows, newest first, and on page 0 the last `perPage` of them |
| TransactionFeed.ViewTransaction | app/Http/Controllers/API/Inventory/View_Inventory.php:113-260 | no report for page size 0; otherwise the restocked quantity of the selected restocks, the count of the selected rows, the last page as its ceiling over the page size, from page 1 on exactly that page of the selected rows, newest first, dates formatted, and on page 0 the last `perPage` of them |
| TransactionFeed.SelectionSound | app/Http/Controllers/API/Inventory/View_Inventory.php:131-230 | every row is of a requested type and passes the filters its kind is subject to; deliveries are settled |
| TransactionFeed.RowsNamed | app/Http/Controllers/API/Inventory/View_Inventory.php:132-221 | every row of the feed carries the name of the product it is about and that product's category name trimmed, which are the columns the category filter and the name search test |
| TransactionFeed.WalkInsFromWalkInSales | app/Http/Controllers/API/Inventory/View_Inventory.php:199-227 | every walk-in row of the feed is the row of a purchase-order line of sale type 2 (`where('po.sale_type_id', '=', 2)`) |
| TransactionFeed.DefaultsUnfiltered | app/Http/Controllers/API/Inventory/View_Inventory.php:115-120 | a request whose types, categories, dates and search are the defaults (`['all']`, `[]`, none, none, `''`) requests every kind and sets no filter |
| TransactionFeed.UnfilteredListsEverything | app/Http/Controllers/API/Inventory/View_Inventory.php:131-230 | a query requesting every kind with no filter lists every restock, settled priced delivery and walk-in row the joins find |
| TransactionFeed.WalkInsIgnoreDates | app/Http/Controllers/API/Inventory/View_Inventory.php:199-227 | the walk-ins selected do not depend on the date range |
| TransactionFeed.WalkInRowsPointwise | app/Http/Controllers/API/Inventory/View_Inventory.php:199-227 | two filters that agree on every walk-in row the lines give select the same walk-in rows |
| TransactionFeed.WalkInAdmitsIgnoreDates | app/Http/Controllers/API/Inventory/View_Inventory.php:222-227 | a walk-in row passes the same filters whatever the date range |
| TransactionFeed.NoRestocksNoTotal | app/Http/Controllers/API/Inventory/View_Inventory.php:122-159 | the restocked quantity is 0 when restocks are not requested |
| TransactionFeed.PricingAsWrittenRepeatsDeliveries | app/Http/Controllers/API/Inventory/View_Inventory.php:165 | as written, one settled delivery line is listed twice, once priced from another product's line; the corrected join lists it once |
| ProductHistory.DateLimit | app/Http/Controllers/API/Product/ProductRestockController.php:324-340 | a limit 30, 60 or 90 days before now exactly for `30_days`, `60_days` and `90_days`; none otherwise |
| ProductHistory.RestockMovement | app/Http/Controllers/API/Product/ProductRestockController.php:346-362 | a row exactly for the product's restocks within the period, carrying the order's quantity valued at the original price and no product id, delivery id, damages, price or status |
| ProductHistory.DeliveryMovement | app/Http/Controllers/API/Product/ProductRestockController.php:372-393 | a row exactly for the product's settled delivery lines within the period, carrying the delivery id, product id, quantity and damages of the line and the price of its purchase-order line, valued at quantity times that price |
| ProductHistory.WalkInMovement | app/Http/Controllers/API/Product/ProductRestockController.php:399-418 | a row exactly for the product's sale-type-2 lines within the period, carrying the product id, the line's quantity and price and no delivery id, damages or status, valued at quantity times its own price |
| ProductHistory.Gathered | app/Http/Controllers/API/Product/ProductRestockController.php:342-421 | each restock row comes from one of the product's restock orders within the period, and each delivery row from one joined delivery line and purchase-order line; deliveries and walk-ins are the product's, within the period, deliveries settled and without repeats; a source whose type is not asked for (strict comparison) is empty |
| ProductHistory.GatheredRestocksComplete | app/Http/Controllers/API/Product/ProductRestockController.php:346-362 | every restock of the product within the period is listed when restocks are asked for |
| ProductHistory.GatheredDeliveriesComplete | app/Http/Controllers/API/Product/ProductRestockController.php:372-393 | every settled delivery line of the product within the period is listed, priced by each line of its purchase order for the product, when deliveries are asked for |
| ProductHistory.GatheredWalkInsComplete | app/Http/Controllers/API/Product/ProductRestockController.php:399-418 | every walk-in sale line of the product within the period is listed when walk-ins are asked for |
| ProductHistory.Latest | app/Http/Controllers/API/Product/ProductRestockController.php:424 | the history is a permutation of the merged rows, newest first |
| ProductHistory.SameDateKeepsSourceOrder | app/Http/Controllers/API/Product/ProductRestockController.php:424 | rows on the same date stay in source order |
| ProductHistory.Answered | app/Http/Controllers/API/Product/ProductRestockController.php:426-449 | a server error exactly for page size 0; otherwise the product's id, name, creation time and remaining quantity, the restocked total, the count of all rows, the last page as the ceiling of that count over the page size, from page 1 on that page of rows, and on page 0 the last `perPage` rows |
| ProductHistory.ProductTransactions | app/Http/Controllers/API/Product/ProductRestockController.php:312-450 | 404 exactly for a missing product, a server error exactly for an existing product and page size 0; otherwise the product's id, name and stock, the restocked quantity of the listed restocks, the count of all gathered rows, the last page as its ceiling over the page size, from page 1 on exactly that page of the rows, newest first, and on page 0 the last `perPage` of them |
| ProductHistory.HistorySound | app/Http/Controllers/API/Product/ProductRestockController.php:342-421 | every row is of a wanted type and within the period; deliveries and walk-ins are the product's, and deliveries are settled |
| ProductHistory.WalkInsFromWalkInSales | app/Http/Controllers/API/Product/ProductRestockController.php:398-414 | every walk-in of the history is one of p's purchase-order lines of sale type 2 |
| ProductHistory.RestockedTotalOfHistory | app/Http/Controllers/API/Product/ProductRestockController.php:343-366 | the restocked total is what the listed restock rows add up to, and 0 when restocks are not asked for |
| Reorder.SafetyStock | app/Http/Controllers/API/Product/ProductRestockController.php:74 | the category's safety stock when the product has a category that sets one, 70 otherwise |
| Reorder.DeliveredRecently | app/Http/Controllers/API/Product/ProductRestockController.php:66-71 | the recent delivered quantity is 0 when no line of the product counts toward usage, and never negative when no counted quantity is |
| Reorder.DeliveredRecentlyByLine | app/Http/Controllers/API/Product/ProductRestockController.php:66-71 | one delivery line adds its quantity exactly when it is p's, successful and at most 30 days old, and the sum over two batches of lines is the sum of their sums; with the empty case this fixes `sum(quantity)` for every list |
| Reorder.DeliveredRecentlyUnordered | app/Http/Controllers/API/Product/ProductRestockController.php:66-71 | the usage sum does not depend on the order of the delivery lines |
| Reorder.NeedsReorder | app/Http/Controllers/API/Product/ProductRestockController.php:73-83 | the integer rule `30·q ≤ 14·delivered + 30·safety` flags exactly the quantities at or below the exact reorder level `delivered / 30 · 14 + safety` |
| Reorder.LevelInHundredths | app/Http/Controllers/API/Product/ProductRestockController.php:82 | the reported level in hundredths is within a third of 100 times the exact level |
| Reorder.LevelInHundredthsIsNearest | app/Http/Controllers/API/Product/ProductRestockController.php:82 | it is the integer nearest to 100 times the level, which is what `round(level, 2)` gives |
| Reorder.NeedsReorderMonotone | app/Http/Controllers/API/Product/ProductRestockController.php:73-83 | less stock, more recent deliveries or a larger safety stock never clear a flag |
| Reorder.Assessed | app/Http/Controllers/API/Product/ProductRestockController.php:65-85 | an entry reports the product's id, name and quantity, its category's name or "N/A", the reorder level rounded to hundredths, and is flagged exactly when the rule holds for its recent deliveries and safety stock |
| Reorder.ByStock | app/Http/Controllers/API/Product/ProductRestockController.php:60-62 | the products as a permutation in ascending order of quantity |
| Reorder.Flag | app/Http/Controllers/API/Product/ProductRestockController.php:88 | a product is kept exactly when its entry is flagged, and then as that entry |
| Reorder.Flagged | app/Http/Controllers/API/Product/ProductRestockController.php:60-91 | the flagged list holds no more entries than there are products, and every entry is flagged |
| Reorder.FlaggedExactly | app/Http/Controllers/API/Product/ProductRestockController.php:60-91 | the report lists only entries of the given products, every flagged product, and least stock first |
| Reorder.ReorderLevelReport | app/Http/Controllers/API/Product/ProductRestockController.php:53-107 | no report for limit 0; otherwise the reorder count equals the total, which is the number of flagged products; every listed entry is flagged; the last page is the ceiling of the count over the limit; from page 1 on the data is that page of the flagged list, and every page up to 1 is the first page |
| Reorder.WorkedExample | app/Http/Controllers/API/Product/ProductRestockController.php:73-83 | 420 units delivered with the default safety stock give a level of 266.00; 266 in stock is flagged and 267 is not |

## Left out

- The `index` action of ProductRestockController (lines 16-20) only lists every order with its user and product. There is no logic to model.
- Users and categories are never changed by the core actions. The `users` set and the `categories` map are fixed when the `Inventory` is built.
- HTTP request parsing, JSON shapes and status codes are left out. Inputs are typed values; errors are `Invalid`, `NotFound` and `Failed`, and the server error of a zero page size is a missing listing.
  - Non-integer request values are not modelled: `(int)` casts, a string `page` or `perPage`, a float `original_price`.
  - Validation messages are not modelled.
- A `nullable` field sent as an explicit null in a product update is not modelled. The model treats it like an absent field.
- The `updated_at` columns and the user rows that responses embed are left out.
- The database is not modelled beyond a value.
  - Foreign-key behaviour on product delete: the model keeps the product's orders, so later order updates and deletes for it return `Failed`.
  - The row order of SQL results without `ORDER BY`: rows are taken in the order the tables are given.
  - Collation: names and categories compare by exact equality.
- `LIKE '%term%'` is modelled as exact substring containment. The case-insensitivity of the database collation and the `%` and `_` wildcards inside the term are not modelled.
- `FORMAT(x, 2)` on total values is modelled as the unformatted integer product. Prices are integers, so no floating point is modelled. Dates go through the parameter `fmt`, and `format('m/d/Y')` on the product's creation date is left out.
- Some columns are simplified.
  - The walk-in rows of `ViewTransaction` also select `po.id`, `po.customer_name` and `po.sale_type_id`. These are not part of `Txn`.
  - `ViewTransactionByProductId` selects fewer columns than `ViewTransaction`. Both are modelled with the same `Txn` record. In the by-product feed, `ByProductColumns` sets the delivery id, damages and delivery status to None, because its delivery query does not select them; its delivery rows keep `pd.price`.
  - `no_of_damages` and `total_damages` are one column, `damages`.
- `ceil` returns a float in PHP. `LastPage` returns the integer it equals.
- Reorder.LevelInHundredths: the level is rounded exactly, in integers, and not through PHP floating point. The two agree only when the float division rounds correctly.
- Joined rows are one record each (`DeliveryLine` and `SaleLine` in schema.dfy). A query that joins `deliveries` or `purchase_orders` is modelled over that record, not over two tables.
  - `DeliveryLine` carries its `deliveries` row's `purchase_order_id`, `status` and `created_at`. `DeliveredRecently` (the Reorder usage sum), `TransactionFeed.DeliveryRows`, `TransactionFeed.ByProductDeliveries` and `ProductHistory.Gathered` read them from the line.
  - `SaleLine` carries its `purchase_orders` row's `sale_type_id` and `created_at`. `TransactionFeed.WalkInRows`, `TransactionFeed.ByProductWalkIns` and the walk-ins of `ProductHistory.Gathered` read them from the line. The delivery queries join `product_details` by its own `purchase_order_id` and need no `purchase_orders` row.
  - A delivery or sale line whose parent row is missing cannot be expressed, so the inner join's dropping of such lines is not modelled.
- Timestamps are never NULL in the model. The `isset($transaction->date_out) ? ... : null` branch of the date formatting and the place of NULL `date_out` keys in `sortByDesc` are not modelled.
- `Ledger.RestockScenario` is a worked example that shows a create, update and delete round trip ending balanced. It carries no `ensures` and has no row above.

## Findings

| source | as written | input that shows it | evidently intended | confidence | as-written member | corrected member |
|---|---|---|---|---|---|---|
| app/Http/Controllers/API/Product/ProductRestockController.php:266-274 | `update` subtracts the old quantity from the order's old product, then adds the new quantity to that same product object, even when the request moves the order to another `product_id` | a balanced ledger with products 1 and 2; move an order of quantity 5 from product 1 to product 2 with quantity 5: product 1 keeps its quantity although it lost the order, product 2 gains an order without gaining stock | the new quantity is added to the order's new product, so every product still equals the sum of its restock orders | not executed | Ledger.RestockChanged, Ledger.RestockMovedBreaksBalance | Ledger.RestockRebalanced, Ledger.RestockRebalancedKeepsBalance, Ledger.Inventory.UpdateRestockOrder |
| app/Http/Controllers/API/Inventory/View_Inventory.php:165 | deliveries join `product_details` on the purchase order only, so each delivery line is paired with every line of its purchase order, whatever that line's product (also at View_Inventory.php:43 and ProductRestockController.php:375) | delivery line of product 10 in purchase order 5, which has lines for products 10 (price 200) and 11 (price 900): the feed lists the delivery twice, once priced at 900 | each delivery line is priced by its purchase order's line for the same product, and listed once | not executed | TransactionFeed.PricingAsWritten, TransactionFeed.PricingAsWrittenRepeatsDeliveries | TransactionFeed.Pricing, TransactionFeed.PricedDeliveriesComplete |
