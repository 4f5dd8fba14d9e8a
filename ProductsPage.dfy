/**
 * The products page: the active and archived lists with their stock, the
 * selection checkboxes, the three-way filter, the status column, the archive
 * button's gate, and saving an edited row (price first, then unit and threshold,
 * then one change-log row).
 */
module ProductsPage {
  import opened Wrappers
  import opened Inventory
  import opened Seqs
  import opened Sorting
  import opened Stock
  import opened Db
  import opened Text
  import opened LowStock
  import opened ProductService
  import opened Paging

  const PageSize: nat := 200

  /** `(a, b) => a.name.localeCompare(b.name)`, under the collation `collate`. */
  function ByName(collate: (string, string) -> bool): (Stocked, Stocked) -> bool
  {
    ByKey(collate, (s: Stocked) => s.product.name)
  }

  function IsActiveRow(s: Stocked): bool { IsActive(s.product) }
  function IsArchivedRow(s: Stocked): bool { !IsActive(s.product) }

  /** The two lists the page shows, as pure functions of the two tables. */
  function ActiveList(products: seq<Product>, stockRows: seq<Batch>, collate: (string, string) -> bool)
    : seq<Stocked>
  {
    Sort(Filter(StockedOf(products, stockRows), IsActiveRow), ByName(collate))
  }

  function ArchivedList(products: seq<Product>, stockRows: seq<Batch>): seq<Stocked>
  {
    Filter(StockedOf(products, stockRows), IsArchivedRow)
  }

  /**
   * `fetchProducts`. `products` is the products query's answer, None when it
   * fails: then both lists stay as they were. Otherwise the stock map is
   * accumulated, merged, and split.
   */
  method FetchProducts(products: Option<seq<Product>>, stockRows: seq<Batch>, collate: (string, string) -> bool,
                       previousActive: seq<Stocked>, previousArchived: seq<Stocked>)
    returns (active: seq<Stocked>, archived: seq<Stocked>)
    ensures products.None? ==> active == previousActive && archived == previousArchived
    ensures products.Some? ==>
      active == ActiveList(products.value, stockRows, collate) && archived == ArchivedList(products.value, stockRows)
  {
    if products.None? {
      return previousActive, previousArchived;
    }
    var stockMap := BuildStockMap(stockRows);
    var merged := Merge(products.value, stockMap);
    MergeIsStockedOf(products.value, stockMap, stockRows);
    active := Sort(Filter(merged, IsActiveRow), ByName(collate));
    archived := Filter(merged, IsArchivedRow);
  }

  /**
   * Every product lands in exactly one list, carrying its summed stock: the
   * active list if it has no archive stamp, the archived list otherwise.
   */
  lemma EachProductInOneList(products: seq<Product>, stockRows: seq<Batch>, collate: (string, string) -> bool,
                             p: Product)
    requires p in products
    ensures var row := Stocked(p, StockOf(stockRows, p.id));
      && (row in ActiveList(products, stockRows, collate) <==> IsActive(p))
      && (row in ArchivedList(products, stockRows) <==> !IsActive(p))
  {
    var merged := StockedOf(products, stockRows);
    var row := Stocked(p, StockOf(stockRows, p.id));
    var i :| 0 <= i < |products| && products[i] == p;
    assert merged[i] == row;
    var act := Filter(merged, IsActiveRow);
    if IsActive(p) {
      assert row in act;
      assert row in multiset(ActiveList(products, stockRows, collate));
    }
    if row in ActiveList(products, stockRows, collate) {
      assert row in multiset(act);
    }
  }

  /**
   * Every listed row is a product with its summed stock, and under a collation that
   * is a total preorder the active list is in name order.
   */
  lemma ListsAreStockedAndSorted(products: seq<Product>, stockRows: seq<Batch>, collate: (string, string) -> bool)
    requires TotalPreorder(collate)
    ensures var active := ActiveList(products, stockRows, collate);
      && Sorted(active, ByName(collate))
      && forall k :: 0 <= k < |active| ==>
           active[k].product in products && active[k].stock == StockOf(stockRows, active[k].product.id)
  {
    var merged := StockedOf(products, stockRows);
    var act := Filter(merged, IsActiveRow);
    var active := ActiveList(products, stockRows, collate);
    ByKeyIsTotalPreorder(collate, (s: Stocked) => s.product.name);
    SortSorted(act, ByName(collate));
    forall k | 0 <= k < |active|
      ensures active[k].product in products && active[k].stock == StockOf(stockRows, active[k].product.id)
    {
      assert active[k] in multiset(act);
      assert active[k] in merged;
    }
  }

  function IsNot(id: nat): nat -> bool { (x: nat) => x != id }

  /** `handleProductSelection`: drop the id if it is selected, append it otherwise. */
  function ToggleSelection(selected: seq<nat>, id: nat): seq<nat>
  {
    if id in selected then Filter(selected, IsNot(id)) else selected + [id]
  }

  /** A toggle flips the id's membership and leaves every other id's alone. */
  lemma ToggleFlips(selected: seq<nat>, id: nat, x: nat)
    ensures x in ToggleSelection(selected, id) <==> (if x == id then id !in selected else x in selected)
  {
  }

  /**
   * Toggling the same id twice gives back the same selected ids, and the very
   * same list when the id was not selected; a selected id comes back at the end.
   */
  lemma ToggleTwice(selected: seq<nat>, id: nat)
    requires NoDup(selected)
    ensures forall x :: x in ToggleSelection(ToggleSelection(selected, id), id) <==> x in selected
    ensures id !in selected ==> ToggleSelection(ToggleSelection(selected, id), id) == selected
  {
    forall x ensures x in ToggleSelection(ToggleSelection(selected, id), id) <==> x in selected {
      ToggleFlips(selected, id, x);
      ToggleFlips(ToggleSelection(selected, id), id, x);
    }
    if id !in selected {
      FilterKeepsAllBut(selected, id);
    }
  }

  lemma {:induction false} FilterKeepsAllBut(s: seq<nat>, id: nat)
    requires id !in s
    ensures Filter(s + [id], IsNot(id)) == s
    decreases |s|
  {
    var t := s + [id];
    assert t[..|t| - 1] == s;
    FilterIdentity(s, id);
  }

  lemma {:induction false} FilterIdentity(s: seq<nat>, id: nat)
    requires id !in s
    ensures Filter(s, IsNot(id)) == s
    decreases |s|
  {
    if |s| > 0 {
      assert s[..|s| - 1] + [s[|s| - 1]] == s;
      FilterIdentity(s[..|s| - 1], id);
    }
  }

  /** Toggling keeps the selection free of repeats. */
  lemma ToggleNoDup(selected: seq<nat>, id: nat)
    requires NoDup(selected)
    ensures NoDup(ToggleSelection(selected, id))
  {
    if id in selected {
      FilterNoDup(selected, IsNot(id));
    }
  }

  /** The three filter conditions on one row. */
  function RowFilter(search: string, lowStockOnly: bool, selected: seq<nat>, lower: string -> string)
    : Stocked -> bool
  {
    (s: Stocked) =>
      && MatchesSearch(s.product.name, s.product.sku, search, lower)
      && (!lowStockOnly || s.stock <= s.product.lowStockThreshold)
      && (|selected| == 0 || s.product.id in selected)
  }

  /** `filteredProducts`: a row is shown iff it passes all three conditions. */
  function FilteredProducts(active: seq<Stocked>, search: string, lowStockOnly: bool, selected: seq<nat>,
                            lower: string -> string)
    : (r: seq<Stocked>)
    ensures forall s :: s in r <==>
      && s in active
      && (Contains(lower(s.product.name), lower(search)) || Contains(lower(s.product.sku), lower(search)))
      && (!lowStockOnly || s.stock <= s.product.lowStockThreshold)
      && (|selected| == 0 || s.product.id in selected)
  {
    Filter(active, RowFilter(search, lowStockOnly, selected, lower))
  }

  /** `paginatedProducts`: the shown rows on page `page`, `PageSize` to a page. */
  function PaginatedProducts(shown: seq<Stocked>, page: int): (r: seq<Stocked>)
    ensures |r| <= PageSize
    ensures forall s :: s in r ==> s in shown
  {
    PageWithin(shown, page, PageSize);
    PageOf(shown, page, PageSize)
  }

  /**
   * No shown row is out of reach: the one at index i is entry i % 200 of page
   * i / 200 + 1, and the pager counts that page.
   */
  lemma EveryRowOnItsPage(shown: seq<Stocked>, i: nat)
    requires i < |shown|
    ensures var p := PaginatedProducts(shown, i / PageSize + 1);
      && i / PageSize + 1 <= TotalPages(|shown|, PageSize)
      && i % PageSize < |p| && p[i % PageSize] == shown[i]
  {
    EveryItemOnItsPage(shown, PageSize, i / PageSize, i % PageSize);
  }

  /** The status column of the table. */
  function StatusColumn(totalStock: int, threshold: int): Status
  {
    if totalStock == 0 then ZeroStock
    else if totalStock <= threshold then LowStock.LowStock
    else InStock
  }

  /** The table's status column and the badge agree on every stock and threshold. */
  lemma StatusColumnIsBadge(totalStock: int, threshold: int)
    ensures StatusColumn(totalStock, threshold) == Badge(totalStock, threshold)
  {
  }

  /** The Archive button is shown to admins for rows whose stock is 0, and only then. */
  function CanArchive(isAdmin: bool, totalStock: int): (r: bool)
    ensures r <==> isAdmin && totalStock == 0
  {
    isAdmin && totalStock == 0
  }

  /**
   * The button is offered only where the service will act: a listed row whose
   * button shows belongs to a loaded product, the user is an admin, and against
   * the batches the list was built from the product's stock is not positive, which
   * is exactly when `archiveProduct`'s stock guard lets the archive through.
   */
  lemma ArchiveOfferedOnlyWhenServiceAllows(products: seq<Product>, stockRows: seq<Batch>,
                                            collate: (string, string) -> bool, isAdmin: bool, row: Stocked)
    requires row in ActiveList(products, stockRows, collate) && CanArchive(isAdmin, row.stock)
    ensures isAdmin && row.product in products && IsActive(row.product)
    ensures !(StockOf(stockRows, row.product.id) > 0)
  {
    var merged := StockedOf(products, stockRows);
    assert row in multiset(Filter(merged, IsActiveRow));
    assert row in merged;
  }

  datatype SaveOutcome = Saved | Declined | ProductMissing

  function PriceDiff(before: int, after: int): Option<PriceChange>
  {
    if before != after then Some(PriceChange(before, after)) else None
  }

  function UnitDiff(before: string, after: string): Option<UnitChange>
  {
    if before != after then Some(UnitChange(before, after)) else None
  }

  function ThresholdDiff(before: int, after: int): Option<ThresholdChange>
  {
    if before != after then Some(ThresholdChange(before, after)) else None
  }

  /** The change-log row one save writes, if anything changed. */
  function EditRecord(pid: nat, price: Option<PriceChange>, unit: Option<UnitChange>, threshold: Option<ThresholdChange>)
    : seq<HistoryRow>
  {
    if price.Some? || unit.Some? || threshold.Some? then [HistoryRow(pid, price, unit, threshold)] else []
  }

  /** Nothing is logged exactly when price, unit and threshold are all unchanged. */
  lemma EditRecordEmptyIffNoChange(pid: nat, p: Product, stored: Product, price: int, unit: string, threshold: int)
    ensures EditRecord(pid, PriceDiff(p.sellingPrice, price), UnitDiff(stored.unit, unit),
                       ThresholdDiff(stored.lowStockThreshold, threshold)) == []
      <==> p.sellingPrice == price && stored.unit == unit && stored.lowStockThreshold == threshold
  {
  }

  /**
   * Saving an edited row `p` (as the page last read it). A price below some
   * in-stock batch's cost that the user does not confirm stops the save before
   * anything is written. Otherwise the price is stored, then the unit and
   * threshold, then one change-log row with whatever changed; a row that no
   * longer exists gets the (empty) price update and nothing more.
   */
  method SaveEdits(db: Store, p: Product, price: int, unit: string, threshold: int, confirmBelowCost: bool)
    returns (outcome: SaveOutcome)
    requires db.Valid()
    modifies db`products, db`history
    ensures db.Valid()
    ensures outcome == Declined <==> BelowSomeCost(db.batches, p.id, price) && !confirmBelowCost
    ensures outcome == Declined ==> db.products == old(db.products) && db.history == old(db.history)
    ensures outcome == ProductMissing <==> outcome != Declined && p.id >= |old(db.products)|
    ensures outcome == ProductMissing ==> db.products == old(db.products) && db.history == old(db.history)
    ensures outcome == Saved ==>
      && db.products == UpdateProductRow(UpdateProductRow(old(db.products), p.id, WithPrice(price)),
                                         p.id, WithAttributes(unit, threshold))
      && db.history == old(db.history) + EditRecord(p.id, PriceDiff(p.sellingPrice, price),
                                                    UnitDiff(old(db.products)[p.id].unit, unit),
                                                    ThresholdDiff(old(db.products)[p.id].lowStockThreshold, threshold))
  {
    var result := UpdateProductPrice(db, p, price, false);
    if result.ShouldConfirm? {
      if !confirmBelowCost {
        return Declined;
      }
      result := UpdateProductPrice(db, p, price, true);
    }
    ghost var afterPrice := db.products;
    var attributes := UpdateProduct(db, p.id, unit, threshold);
    if attributes.Failure? {
      return ProductMissing;
    }
    assert result.priceHistory == PriceDiff(p.sellingPrice, price);
    assert attributes.value.unit == UnitDiff(afterPrice[p.id].unit, unit);
    assert attributes.value.threshold == ThresholdDiff(afterPrice[p.id].lowStockThreshold, threshold);
    LogProductChanges(db, p.id, result.priceHistory, attributes.value);
    return Saved;
  }
}
