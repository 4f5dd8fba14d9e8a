# Inventory and point-of-sale core, modelled in Dafny

This project models the business logic of a small inventory and point-of-sale
web application. Products are received in stock batches, each with its own
unit cost. A sale takes units from a product's batches oldest first (FIFO) and
records the cost of the goods it sold. A sale made in the last 24 hours can be
cancelled, which puts its units back into stock. Around that core sit:

- the product service (attribute and price edits with a below-cost guard, the
  change log, archiving, and the joined sale and stock-in reports);
- the product list (stock totals, sorting, filtering, paging, the status badge);
- the low-stock list;
- the stock-in form;
- the dashboard's per-day aggregation and the daily stock details;
- the today, week and month summary;
- the top-five rankings and the product segments.

Figures are modelled as follows:

- Money is an `int` number of the smallest currency unit. Quantities are `int`.
  Timestamps are `int` milliseconds.
- Database rows are values in a `Db.Store` object whose sequences the methods
  update in place. A row's id is its index in its table.
- The local calendar is the parameter `local: int -> Date`, the day a timestamp
  falls on in the browser's time zone. Reading a `YYYY-MM-DD` key back into a
  time is the parameter `parse`. Local midnight of a calendar date is the
  parameter `midnight`.
- `toLowerCase` is the parameter `lower: string -> string`. `a.localeCompare(b) <= 0`
  is the parameter `collate: (string, string) -> bool`. A list sorted by name is
  claimed to be in name order under any collation that is a total preorder.

Modules:

| module | what it models |
|---|---|
| `Wrappers`, `Seqs`, `Sorting`, `Text` | Option/Result, sums and filters over sequences, the stable sort used for `Array.prototype.sort`, ordering by a key, and substring search |
| `Inventory`, `Stock`, `Db` | the rows (products, batches, sales, sale items, history), the per-product stock map and the store with its writes |
| `Fifo` | `calculateFifo` |
| `SaleForm` | the sale form: product picker, cart, total and `confirmSale` |
| `Sales` | the sales page: `cancelSale`, the 24-hour rule, filtering and paging |
| `Paging` | `Math.ceil` page counts, `slice` pages and the page-jump clamp shared by the sales and products pages |
| `ProductService` | `products.js` |
| `ProductsPage` | the products page: lists, selection, filters, status column and the save flow |
| `LowStock` | the low-stock badge and the low-stock list |
| `StockInForm` | the stock-in form and its product combobox |
| `Dashboard`, `DayKey` | the per-day aggregation and its `YYYY-MM-DD` keys |
| `Grouping`, `DailyStock` | group-by-name with first-seen order, and the daily stock details |
| `SalesSummary` | the today, week and month totals |
| `Ranking`, `TopItems`, `ProductMetrics` | top five by a figure, the fast-moving and high-profit lists, and the product segments |

## Model

| member | source | states |
|---|---|---|
| Fifo.CalculateFifo | src/utils/fifo.js:1-23 | The loop returns exactly `Allocate`: the walk that takes min(remaining, still needed) from each batch in order, stops once nothing is needed, and fails when stock runs out |
| Fifo.FifoShape | src/utils/fifo.js:4-16 | Every input batch comes back, in order, changed at most in its remaining quantity |
| Fifo.FifoConservation | src/utils/fifo.js:11-14 | Units removed from the batches equal the units requested minus what is left unmet |
| Fifo.FifoCostIdentity | src/utils/fifo.js:11-14 | The cost of goods sold is the sum over batches of units taken × that batch's unit cost |
| Fifo.FifoBounds | src/utils/fifo.js:11-14 | With non-negative input, every remaining quantity stays between 0 and its old value |
| Fifo.FifoOrder | src/utils/fifo.js:6-16 | A batch is touched only when every older batch has been emptied |
| Fifo.FifoUnmet | src/utils/fifo.js:6-20 | What is left unmet is the shortfall against total remaining stock, or 0 |
| Fifo.FifoFailsIffShort | src/utils/fifo.js:18-20 | Allocation fails exactly when more is requested than the batches hold |
| Fifo.FifoSuccess | src/utils/fifo.js:18-22 | When stock suffices, allocation succeeds, total remaining drops by exactly the quantity, and nothing goes negative |
| Fifo.FifoNothingRequested | src/utils/fifo.js:7-9 | A request for zero or fewer units costs nothing and returns the batches unchanged |
| Fifo.FifoExample | src/utils/fifo.js:1-23 | 8 units over batches of 5 at 10 and 5 at 12 cost 86 and leave 0 and 2 |
| Stock.BuildStockMap | src/components/SaleForm.jsx:32-36 | The stock map has a key exactly for products with a batch, and its per-product total equals the sum of remaining quantities |
| Stock.MergeIsStockedOf | src/pages/Products.jsx:77-86 | Merging products with the stock map gives each product its total remaining stock |
| Stock.StockOfIsSumOfFilter | src/components/SaleForm.jsx:145-161 | A product's stock is the sum of remaining quantities over that product's batches |
| SaleForm.FetchProducts | src/components/SaleForm.jsx:22-43 | The picker lists exactly the active products with stock above 0, each with its total stock |
| SaleForm.OffersComplete | src/components/SaleForm.jsx:38-42 | Every active product with stock above 0 appears in the picker |
| SaleForm.OffersSound | src/components/SaleForm.jsx:38-42 | Every picker entry is an active product with stock above 0 and its true stock |
| SaleForm.FindLine | src/components/SaleForm.jsx:90 | `find` returns the first cart line with the id, or none exactly when no line has it |
| SaleForm.AddToCartRejectsBadQuantity | src/components/SaleForm.jsx:81-85 | A missing or non-positive quantity is rejected |
| SaleForm.AddToCartRejectsCancelled | src/components/SaleForm.jsx:92-95 | A product whose cart line was cancelled cannot be added again |
| SaleForm.AddToCartSucceedsIff | src/components/SaleForm.jsx:80-127 | Adding succeeds exactly when the quantity is positive, the product is in the picker, its line is not cancelled and the cart plus the new units stay within its stock |
| SaleForm.AddToCartMerges | src/components/SaleForm.jsx:104-111 | Adding to an existing line raises only that line's quantity, stays within stock, keeps the cart valid and raises the total by quantity × price |
| SaleForm.AddToCartAppends | src/components/SaleForm.jsx:113-122 | Adding a new product appends one line with the picker's name, price and sku, keeps the cart valid and raises the total by quantity × price |
| SaleForm.TotalCountsActiveLines | src/components/SaleForm.jsx:129-131 | The total sums quantity × price over the lines that are not cancelled |
| SaleForm.CancelLineSpec | src/components/SaleForm.jsx:328-338 | Cancelling flags only that line, keeps the cart valid, lowers the total by that line's amount and is idempotent |
| SaleForm.ActiveLinesValid | src/components/SaleForm.jsx:134 | The lines left after dropping cancelled ones have distinct ids and positive quantities |
| SaleForm.SaleBatchesFacts | src/components/SaleForm.jsx:174-179 | The batches queried for a line are that product's rows with stock, distinct, oldest first, and hold at least the product's stock |
| SaleForm.WriteBackEffect | src/components/SaleForm.jsx:194-199 | Writing the updated copies back changes only that product's rows and lowers its stock by the units the copies lost |
| SaleForm.SellLineSucceeds | src/components/SaleForm.jsx:181-184 | After the stock check, `calculateFifo` cannot throw, and the cost stored and the batches written are the allocation's |
| SaleForm.SellLineShape | src/components/SaleForm.jsx:173-199 | Selling one line changes only remaining quantities of that product's batches and keeps them non-negative |
| SaleForm.SellLineStock | src/components/SaleForm.jsx:173-199 | Selling one line lowers that product's stock by exactly its quantity |
| SaleForm.SellLineKeepsOtherStock | src/components/SaleForm.jsx:173-199 | Selling one line leaves every other product's stock unchanged |
| SaleForm.SellLinesStock | src/components/SaleForm.jsx:173-200 | Selling all the lines lowers each line's product stock by that line's quantity |
| SaleForm.SellLinesKeepOthers | src/components/SaleForm.jsx:173-200 | Selling all the lines leaves the rows of products not in the cart unchanged |
| SaleForm.SellLinesKeepOtherStock | src/components/SaleForm.jsx:173-200 | Selling all the lines leaves the stock of products not in the cart unchanged |
| SaleForm.SellLinesPrefixAgree | src/components/SaleForm.jsx:173-192 | Each line sees its product's batches as they were before the sale, because ids are distinct |
| SaleForm.FinalStockCheck | src/components/SaleForm.jsx:145-161 | The check reports no line exactly when every line fits its stock, and otherwise the first line that does not |
| SaleForm.SaveLine | src/components/SaleForm.jsx:173-199 | One pass stores a sale item with the FIFO cost and writes the allocation's batches back |
| SaleForm.WriteBackBatches | src/components/SaleForm.jsx:194-199 | The write-back loop updates each copied batch's remaining quantity by id |
| SaleForm.SaveLines | src/components/SaleForm.jsx:173-200 | The per-line loop stores one sale item per line in order and leaves the batches as selling every line in turn |
| SaleForm.ConfirmSale | src/components/SaleForm.jsx:133-210 | An empty cart, a line beyond stock, or a failed sale insert writes nothing; the error says which, and names the line beyond stock. Otherwise it inserts one sale with the total and one item per active line, lowers each sold product's stock by its quantity and leaves other products' stock alone. Every existing cancellation stamp is kept |
| Sales.NewestFirstFacts | src/pages/Sales.jsx:73-77 | The batch chosen for a product is its newest row, and there is none exactly when the product has no batch |
| Sales.CreditNewestSpec | src/pages/Sales.jsx:79-92 | A positive quantity is added to the product's newest batch and nowhere else; with no batch or no quantity nothing changes |
| Sales.CreditNewestCredits | src/pages/Sales.jsx:79-92 | Crediting a product that has batches adds the quantity to its newest batch |
| Sales.CreditNewestStock | src/pages/Sales.jsx:79-92 | Crediting raises that product's stock by the quantity, when it has a batch, and no other product's |
| Sales.CreditAllStock | src/pages/Sales.jsx:70-93 | Restoring all items raises each product's stock by the quantity sold of it, when it has a batch |
| Sales.RestoreItem | src/pages/Sales.jsx:73-92 | The inner loop's write equals crediting the newest batch |
| Sales.RestoreItems | src/pages/Sales.jsx:70-93 | The outer loop credits every item of the sale in order |
| Sales.CancelSale | src/pages/Sales.jsx:54-107 | An already cancelled sale or a declined confirmation changes nothing. Otherwise every item goes back to stock and the sale is stamped cancelled now; products, items and history are untouched. Every existing stamp is kept |
| Sales.CancelCreditsAnotherBatch | src/pages/Sales.jsx:79-92 | Units sold from an older batch are credited to the newest one, which can then exceed its received quantity |
| Sales.IsWithin24Hours | src/pages/Sales.jsx:110-116 | A sale is recent exactly when less than 24 hours have passed |
| Sales.CanCancel | src/pages/Sales.jsx:232-233 | The cancel button shows exactly for an admin, on a sale not cancelled and less than 24 hours old |
| Sales.CancelledStaysUncancellable | src/pages/Sales.jsx:53-104 | A sale stamped cancelled in one state of the sales table still exists, with the same stamp, in any later state reached by writes that keep stamps, and there it can never be cancelled again, by anyone, at any time |
| Sales.PaginatedSales | src/pages/Sales.jsx:13 | A sales page holds at most 10 sales, each one passing the id filter |
| Sales.EverySaleOnItsPage | src/pages/Sales.jsx:132-134 | The filtered sale at index i is entry i mod 10 of page i div 10 + 1, a page the pager counts |
| Sales.FilteredSales | src/pages/Sales.jsx:119-129 | A sale is listed exactly when the id filter is empty or its display id contains it |
| Paging.TotalPages | src/pages/Sales.jsx:132 | The page count is the least number of full pages covering the list, and 0 only for an empty list |
| Paging.PageContents | src/pages/Sales.jsx:133-134 | A page is the slice starting at (page − 1) × size, at most a page long, empty past the end |
| Paging.EveryItemOnItsPage | src/pages/Products.jsx:120-125 | Item q × size + r is at position r of page q + 1, which exists |
| Paging.PageWithin | src/pages/Sales.jsx:133-134 | Any page, whatever its number, holds at most a page of items, each from the list |
| Paging.ClampPage | src/pages/Sales.jsx:328-332 | A typed page that is not a number or is below 1 becomes 1, one above the last page becomes the last, and any other is kept |
| ProductService.UpdateProduct | src/services/products.js:24-57 | A missing product fails and writes nothing; otherwise unit and threshold are written and a change record is returned exactly for the fields that differ |
| ProductService.HighestCost | src/services/products.js:62-85 | The highest cost among the product's batches with stock, or none exactly when it has none |
| ProductService.HighestCostDecides | src/services/products.js:62-85 | The new price is below the highest batch cost exactly when it is below some batch's cost |
| ProductService.UpdateProductPrice | src/services/products.js:61-143 | Without force, a price below some batch cost only asks for confirmation and writes nothing; otherwise the price is written and a history record is returned exactly when it changed |
| ProductService.LogProductChanges | src/services/products.js:149-182 | One history row with every change is appended when something changed, and nothing otherwise |
| ProductService.SumStock | src/services/products.js:191-194 | The reduce equals the product's stock |
| ProductService.ArchiveProduct | src/services/products.js:184-207 | Archiving fails, writing nothing, exactly when the product has stock; otherwise the product is stamped archived |
| ProductService.UnarchiveProduct | src/services/products.js:209-217 | Unarchiving clears the archive stamp and touches nothing else |
| ProductService.UnarchiveUndoesArchive | src/services/products.js:184-217 | Unarchiving an archived product that was active restores the table exactly |
| ProductService.LiveLinesExact | src/services/products.js:219-251 | The report holds a line exactly for each item of a sale that is not cancelled |
| ProductService.LinesOfSalesSound | src/services/products.js:238-248 | Every line pairs a listed sale with one of its own items |
| ProductService.LinesOfSalesComplete | src/services/products.js:238-248 | Every item of a listed sale gives a line |
| ProductService.SaleRowFigures | src/services/products.js:238-248 | Each row carries the item's quantity, amount = quantity × price, gross profit = amount − cost, the sale's date and the product's name |
| ProductService.ProfitIsRevenueMinusCost | src/services/products.js:244-245 | Total gross profit is total amount minus total cost of goods sold |
| ProductService.StockInRowsFacts | src/services/products.js:253-278 | The report fails exactly when some batch's product is missing. Otherwise its rows follow a reordering of the batches, one row per batch, each with that batch's product name and sku, received quantity, unit cost, total cost and date, newest first |
| ProductsPage.FetchProducts | src/pages/Products.jsx:61-95 | A failed products query keeps both lists. Otherwise the active list is the merged active products sorted by the collation, and the archived list is the merged archived products in table order |
| ProductsPage.EachProductInOneList | src/pages/Products.jsx:83-93 | Each product is in the active list exactly when it is active and in the archived list exactly when it is not |
| ProductsPage.ListsAreStockedAndSorted | src/pages/Products.jsx:83-90 | Under any collation that is a total preorder the active list is in name order, and each row carries its product's true stock |
| ProductsPage.ToggleFlips | src/pages/Products.jsx:97-103 | Toggling flips membership of that id and no other |
| ProductsPage.ToggleTwice | src/pages/Products.jsx:97-103 | Toggling twice restores the selection |
| ProductsPage.ToggleNoDup | src/pages/Products.jsx:97-103 | Toggling keeps the selection free of duplicates |
| ProductsPage.FilteredProducts | src/pages/Products.jsx:105-114 | A row is shown exactly when its lower-cased name or sku contains the lower-cased search, is low when low-only is set, and is selected when a selection exists |
| ProductsPage.PaginatedProducts | src/pages/Products.jsx:31 | A products page holds at most 200 rows, each one of the shown rows |
| ProductsPage.EveryRowOnItsPage | src/pages/Products.jsx:120-125 | The shown row at index i is entry i mod 200 of page i div 200 + 1, a page the pager counts |
| ProductsPage.StatusColumnIsBadge | src/pages/Products.jsx:323-329 | The status column agrees with the low-stock badge |
| ProductsPage.CanArchive | src/pages/Products.jsx:430 | The archive button shows exactly for an admin on a product with zero stock |
| ProductsPage.ArchiveOfferedOnlyWhenServiceAllows | src/services/products.js:184-198 | The button is offered only where the service will archive: the row is an active product from the table, and the stock the service sums for it is not positive, so the guard does not throw |
| ProductsPage.EditRecordEmptyIffNoChange | src/services/products.js:149-182 | The save flow logs nothing exactly when price, unit and threshold are all unchanged |
| ProductsPage.SaveEdits | src/pages/Products.jsx:337-360 | A declined below-cost confirmation or a missing product writes nothing; otherwise price, then unit and threshold, are written and exactly the changes are logged |
| Text.MatchesSearch | src/pages/Products.jsx:105-114 | The lower-cased name or sku contains the lower-cased term, under the given case mapping |
| Text.EmptyTermMatches | src/components/StockInForm.jsx:27-31 | Under any case mapping that keeps the empty string empty, an empty term matches every product |
| Sorting.ByKeyIsTotalPreorder | src/pages/Products.jsx:90 | Comparing rows by their names is a total preorder whenever the collation is |
| Sorting.SortIsStable | src/components/FastMovingItems.jsx:32-34 | Elements the comparator ties come out of the sort in the order they went in |
| Text.Includes | src/pages/Sales.jsx:121 | `includes` holds exactly when the text occurs at some position |
| LowStock.Badge | src/components/LowStockBadge.jsx:1-23 | Zero stock, low stock (at most the threshold) and in stock are exclusive and cover every case |
| LowStock.FetchLowStockItems | src/components/LowStockItems.jsx:9-42 | A failed products query keeps the previous list. Otherwise the list is the active products at or below their threshold, sorted by stock ascending |
| LowStock.LowStockListSound | src/components/LowStockItems.jsx:36-38 | Every listed row is an active product with its true stock at or below its threshold |
| LowStock.LowStockListComplete | src/components/LowStockItems.jsx:36-38 | Every active product at or below its threshold is listed |
| LowStock.LowStockListSorted | src/components/LowStockItems.jsx:38 | The list is sorted by stock ascending |
| LowStock.LowStockListNoDup | src/components/LowStockItems.jsx:36-38 | No row is listed twice |
| StockInForm.DropdownList | src/components/StockInForm.jsx:27-32 | The dropdown lists exactly the products whose lower-cased name or sku contains the lower-cased search, each as often as in the loaded list |
| StockInForm.DropdownListSorted | src/components/StockInForm.jsx:32 | Under any collation that is a total preorder the dropdown is in name order |
| StockInForm.EmptyTermListsAll | src/components/StockInForm.jsx:27-32 | An empty search lists every product, under any case mapping that keeps the empty string empty |
| StockInForm.Form.constructor | src/components/StockInForm.jsx:6-12 | The form starts empty with the dropdown closed |
| StockInForm.Form.FetchProducts | src/components/StockInForm.jsx:18-25 | The form holds the active products sorted by the collation |
| StockInForm.Form.SelectionListsAll | src/components/StockInForm.jsx:111-118 | With a product selected, the dropdown lists every loaded product |
| StockInForm.Form.HandleQuantityChange | src/components/StockInForm.jsx:173 | Typing a quantity sets it and nothing else |
| StockInForm.Form.HandleCostChange | src/components/StockInForm.jsx:182 | Typing a cost sets it and nothing else |
| StockInForm.Form.HandleSubmit | src/components/StockInForm.jsx:35-71 | Without a product, or on a failed insert, nothing changes; otherwise one batch with remaining = quantity, the entered cost and now is inserted and the form is cleared |
| StockInForm.Form.HandleSelectProduct | src/components/StockInForm.jsx:73-78 | Selecting shows "name (sku)", clears the search and closes the dropdown |
| StockInForm.Form.HandleToggleDropdown | src/components/StockInForm.jsx:80-89 | Toggling flips the dropdown, clears a selection when opening on one, and searches what was typed when opening without one |
| StockInForm.Form.HandleInputChange | src/components/StockInForm.jsx:91-97 | Typing searches for the text, clears the selection and opens the dropdown |
| StockInForm.Form.HandleFocus | src/components/StockInForm.jsx:111-118 | Focusing opens the dropdown and keeps the selection; over a selected product the search is cleared, otherwise typed text becomes the search |
| StockInForm.Form.HandleBlur | src/components/StockInForm.jsx:119 | When the blur timer fires the dropdown closes and nothing else changes |
| Dashboard.AddSales | src/pages/Dashboard.jsx:32-41 | A day has an entry exactly when it had one or a sale falls on it, holding that day's sales and profit sums |
| Dashboard.AddStockIns | src/pages/Dashboard.jsx:44-51 | A stock-in marks its day as having stock activity and changes nothing else |
| Dashboard.AddSchedules | src/pages/Dashboard.jsx:54-61 | A schedule marks its day as having a schedule and changes nothing else |
| Dashboard.AggregateDaily | src/pages/Dashboard.jsx:22-69 | A day has an entry exactly when a sale, stock-in or schedule falls on it, with that day's sales and profit sums and the two flags |
| DayKey.KeyInjective | src/pages/Dashboard.jsx:34 | Different dates give different `YYYY-MM-DD` keys |
| DayKey.ParsePad2 | src/pages/Dashboard.jsx:34 | A zero-padded two-digit field reads back as its number |
| DailyStock.FetchDetails | src/components/DailyStockModal.jsx:16-104 | The details hold the day's sales and stock-ins grouped by name with their totals; a missing date or a failed query keeps the previous details |
| DailyStock.GroupSales | src/components/DailyStockModal.jsx:38-54 | The grouping loop builds one group per name in first-seen order |
| DailyStock.SaleGroupsExact | src/components/DailyStockModal.jsx:38-54 | There is a group for a name exactly when a row has it, and no two groups share a name |
| DailyStock.SaleGroupsKeepFirstSku | src/components/DailyStockModal.jsx:38-54 | A group keeps the sku of the first row with its name |
| DailyStock.SaleGroupsPreserveSums | src/components/DailyStockModal.jsx:38-54 | The groups' quantities, amounts and profits sum to the rows' |
| DailyStock.GroupStockIns | src/components/DailyStockModal.jsx:78-92 | The stock-in grouping loop builds one group per name in first-seen order |
| DailyStock.StockInGroupsPreserveSums | src/components/DailyStockModal.jsx:78-92 | The stock-in groups' quantities and costs sum to the rows' |
| DailyStock.DetailsTotalsMatchLines | src/components/DailyStockModal.jsx:57-62 | The day's totals equal the sums over the grouped lines |
| Grouping.Names | src/components/DailyStockModal.jsx:38-54 | The group names are distinct and are exactly the names of the rows |
| Grouping.FindBy | src/components/DailyStockModal.jsx:40 | `find` by name returns the first match, or none exactly when no element has the name |
| Grouping.FirstOfIsFirst | src/components/DailyStockModal.jsx:40-50 | A group's first field is the one of the row `find` returns |
| Grouping.TotalsSumToAll | src/components/DailyStockModal.jsx:38-54 | Per-name totals sum to the total over all rows |
| SalesSummary.DaysToSubtract | src/components/SalesSummary.jsx:16-17 | The week starts on the most recent Monday, 0 to 6 days back |
| SalesSummary.Summarize | src/components/SalesSummary.jsx:12-58 | While loading the summary is kept; with no days it is zero; otherwise each window sums the days on or after its start |
| SalesSummary.WindowBucket | src/components/SalesSummary.jsx:28-43 | The loop's running sums equal the sums over the days on or after the start |
| SalesSummary.TodayInWeekAndMonth | src/components/SalesSummary.jsx:15-19 | Today's start is on or after the week's and the month's |
| SalesSummary.TodayAtMostWeekAndMonth | src/components/SalesSummary.jsx:28-43 | With non-negative daily sales, today's total is at most the week's and the month's |
| TopItems.TallyBy | src/components/FastMovingItems.jsx:21-30 | The tally loop gives one total per name in first-seen order |
| TopItems.TopTalliesFacts | src/components/FastMovingItems.jsx:21-39 | At most five names, distinct, in descending order, each with its true total, and no left-out name beats any listed one |
| TopItems.LeftOutSmaller | src/components/HighProfitItems.jsx:34-41 | No name left out of the top five has a larger total than any listed name |
| TopItems.FetchFastMovingItems | src/components/FastMovingItems.jsx:16-42 | The list is the top five names by quantity sold, or empty when the query fails |
| TopItems.FetchHighProfitItems | src/components/HighProfitItems.jsx:17-44 | The list is the top five names by gross profit, or empty when the query fails |
| Ranking.TopFiveRanks | src/components/FastMovingItems.jsx:32-34 | The top five are in descending order of the key and no left-out element has a larger key |
| ProductMetrics.CollectMetrics | src/components/ProductMetrics.jsx:18-30 | The loop collects one quantity and profit total per name in first-seen order |
| ProductMetrics.FetchProductMetrics | src/components/ProductMetrics.jsx:13-60 | The segments come from the top five by quantity and by profit; a failed query keeps the previous metrics |
| ProductMetrics.TopListsRanked | src/components/ProductMetrics.jsx:32-45 | Both top lists have at most five distinct names in descending order of their figure |
| ProductMetrics.SegmentsPartition | src/components/ProductMetrics.jsx:47-55 | Golden and fast-but-low-profit split the fast list; golden and high-profit-but-slow cover the high list; no name is in two segments |
| Db.Store.InsertBatch | src/components/StockInForm.jsx:43-49 | Appends one batch whose id is its row index |
| Db.Store.UpdateBatchRemaining | src/components/SaleForm.jsx:194-199 | Sets one batch's remaining quantity by id and changes no other row |
| Db.Store.InsertSale | src/components/SaleForm.jsx:164-170 | Appends one uncancelled sale whose id is its row index, keeping every stamp |
| Db.AppendKeepsStamps | src/components/SaleForm.jsx:164-170 | Inserting sales keeps every existing row and its cancellation stamp |
| Db.StampKeepsStamps | src/pages/Sales.jsx:55-104 | Stamping a sale that had no stamp keeps every existing stamp |
| Db.KeepsStampsTransitive | src/pages/Sales.jsx:53-104 | Stamps kept by each of two successive writes are kept by both together |
| Sales.StampsKeptAlong | src/pages/Sales.jsx:53-104 | Stamps kept by every write of a history are kept from its first state to its last |
| Db.Store.InsertSaleItem | src/components/SaleForm.jsx:186-192 | Appends one sale item |
| Db.Store.MarkCancelled | src/pages/Sales.jsx:96-104 | Stamps one sale cancelled and changes no other row |
| Db.Store.UpdateProduct | src/services/products.js:134-142 | Rewrites one product row by id and changes no other row |
| Db.Store.InsertHistory | src/services/products.js:149-182 | Appends one history row |

## Left out

- Database and network failures are modelled only where listed here, as a boolean or an `Option` parameter: the batch insert in the stock-in form, the sale insert in `confirmSale` (src/components/SaleForm.jsx:170), the products queries of the product list and the low-stock list, and the queries of the dashboard components. Every other query or write succeeds in the model. That includes the ones the code checks, such as the service's `if (error) throw error` at src/services/products.js:43, 140, 206, 216, 236 and 266, and the ones it never checks, such as the batch updates in `confirmSale` and `cancelSale` and the sale-item inserts. The partial state after an exception part-way through a loop is not modelled.
- Realtime subscriptions, alerts, timers, highlighting, number and date formatting, receipts, charts and the modal components are left out. They only display or schedule work.
- Concurrency between browser tabs or users is left out. Each operation runs against a stable snapshot of the store.
- `toLowerCase` and `localeCompare` are the parameters `lower` and `collate`, so Unicode case mapping and the locale's collation rules are not modelled. The matching and ordering facts hold for whatever functions are passed, within the stated conditions.
- `Number(...)` and `parseInt` parsing are parameters. A field that does not parse is `None`; a parsed number is an integer. Fractional quantities are not modelled.
- `new Date(...)` on a date string, `new Date(y, m, d)` and the browser's time zone are the parameters `parse`, `midnight` and `local`. Daylight-saving rules are whatever those functions say.
- SaleForm.FetchProducts: the sale form's product combobox (`handleSelectProduct`, `handleToggleDropdown`, `handleInputChange` at src/components/SaleForm.jsx:46-78) is modelled once, in `StockInForm.Form`, whose handlers are the same.
- SaleForm.AddToCartSucceedsIff: src/components/SaleForm.jsx:126 calls a function the file does not define after a successful add. The model treats that call as absent, so the cart update is its only effect.
- Sales.FilteredSales: the start- and end-date filters (src/pages/Sales.jsx:124-126) are not modelled, because they compare `Date` objects built from strings. Only the id filter is.
- Sales.CancelSale: sales arrive in whatever order the query returns. The model takes a sale by index and does not model `fetchSales` or its ordering. The error returns of the items query (src/pages/Sales.jsx:64-67) and of the cancel stamp (src/pages/Sales.jsx:101-104) are not modelled; both queries succeed. Batches received at the same instant are credited in table order.
- ProductService.UpdateProductPrice: the duplicate of the below-cost query at src/services/products.js:102-126 is modelled once, since both compute the same highest cost.
- Paging.ClampPage: with zero pages every typed page ends as 0, as in the source. The postcondition bounds the page between 1 and the page count only when there is at least one page.
- DayKey.KeyInjective: the year is a `nat`, so dates before year 0, whose `getFullYear` is negative, are not modelled.
- TopItems.TallyBy: totals are kept in first-seen order, which is what `Object.values` (src/components/FastMovingItems.jsx:32, src/components/HighProfitItems.jsx:34) gives for non-numeric keys. A product name that looks like an array index would be listed first by JavaScript, and the model does not capture that. Nor does it capture a product named after an inherited `Object.prototype` member (`constructor`, `toString`): the source's `!map[name]` test finds the inherited function, so no entry is created, the sum goes onto that function, and the name never reaches the list.
- ProductMetrics.CollectMetrics: the same two gaps hold for the map at src/components/ProductMetrics.jsx:20-32: the `Object.values` order, and names of inherited `Object.prototype` members, which are dropped. The daily stock details (`Grouping`) group with an array and `find`, whose order the model captures exactly.
- ProductService.LiveLines: the report takes the sales newest first, then each sale's embedded `sale_items`, both in table order (src/services/products.js:219-234). The database guarantees neither the order of sales created at the same instant nor the order of the embedded items. That order decides which sku the daily stock details keep for a product and how ties fall in the top-five lists and the product segments, and the model fixes it rather than leaving it open.
- SaleForm.SaleBatchesFacts: a `null` result from the batch query is taken as an empty list. `order('received_at')` (src/components/SaleForm.jsx:174-179) leaves batches received at the same instant in an order the database chooses; the model takes them in table order, so where such batches differ in cost the cost it records is one of the possible ones.
- Dashboard.AggregateDaily: the method takes the fetched rows. The `catch` at src/pages/Dashboard.jsx:64-65, which keeps the previous data when a query throws, is not modelled. Schedules are given by their parsed timestamps.
- Db.Store: row ids are row indices, so a lookup by id is an index. Archived products stay in the table, as in the source.
- Authentication (`AuthContext`) becomes an `isAdmin` parameter. Routing, navigation and the schedule service are not part of this model.
