/**
 * The stock status badge and the low-stock panel: active products whose stock is
 * at or below their threshold, emptiest first.
 */
module LowStock {
  import opened Wrappers
  import opened Inventory
  import opened Seqs
  import opened Sorting
  import opened Stock

  datatype Status = ZeroStock | LowStock | InStock

  /** The badge: no stock at all, at or below the threshold, or above it. */
  function Badge(stock: int, threshold: int): (r: Status)
    ensures r == ZeroStock <==> stock == 0
    ensures r == LowStock <==> stock != 0 && stock <= threshold
    ensures r == InStock <==> stock != 0 && stock > threshold
  {
    if stock == 0 then ZeroStock
    else if stock <= threshold then LowStock
    else InStock
  }

  function IsLow(s: Stocked): bool { s.stock <= s.product.lowStockThreshold }

  /** `(a, b) => a.total_stock - b.total_stock`, ascending. */
  function ByStock(a: Stocked, b: Stocked): bool { a.stock <= b.stock }

  lemma ByStockIsTotalPreorder()
    ensures TotalPreorder(ByStock)
  {
  }

  /** The panel's list: active products with their stock, the low ones, emptiest first. */
  function LowStockList(products: seq<Product>, stockRows: seq<Batch>): seq<Stocked>
  {
    Sort(Filter(StockedOf(Filter(products, IsActive), stockRows), IsLow), ByStock)
  }

  /**
   * `fetchLowStockItems`, with the stock map accumulated as the component does.
   * `products` is the products query's answer, None when it fails: then the
   * panel keeps the list it had.
   */
  method FetchLowStockItems(products: Option<seq<Product>>, stockRows: seq<Batch>, previous: seq<Stocked>)
    returns (items: seq<Stocked>)
    ensures products.None? ==> items == previous
    ensures products.Some? ==> items == LowStockList(products.value, stockRows)
  {
    if products.None? {
      return previous;
    }
    var active := Filter(products.value, IsActive);
    var stockMap := BuildStockMap(stockRows);
    var merged := Merge(active, stockMap);
    MergeIsStockedOf(active, stockMap, stockRows);
    items := Sort(Filter(merged, IsLow), ByStock);
  }

  /** Every listed row is an active product, its summed stock, at or below its threshold. */
  lemma LowStockListSound(products: seq<Product>, stockRows: seq<Batch>)
    ensures var items := LowStockList(products, stockRows);
      forall k :: 0 <= k < |items| ==>
        && items[k].product in products && IsActive(items[k].product)
        && items[k].stock == StockOf(stockRows, items[k].product.id)
        && items[k].stock <= items[k].product.lowStockThreshold
  {
    var active := Filter(products, IsActive);
    var low := Filter(StockedOf(active, stockRows), IsLow);
    var items := LowStockList(products, stockRows);
    forall k | 0 <= k < |items|
      ensures items[k].product in products && IsActive(items[k].product)
      ensures items[k].stock == StockOf(stockRows, items[k].product.id)
      ensures items[k].stock <= items[k].product.lowStockThreshold
    {
      assert items[k] in multiset(low);
      LowRowFacts(products, stockRows, items[k]);
    }
  }

  /** A row that survives the filters is an active product with its summed stock, at or below its threshold. */
  lemma LowRowFacts(products: seq<Product>, stockRows: seq<Batch>, x: Stocked)
    requires x in Filter(StockedOf(Filter(products, IsActive), stockRows), IsLow)
    ensures x.product in products && IsActive(x.product)
    ensures x.stock == StockOf(stockRows, x.product.id) && x.stock <= x.product.lowStockThreshold
  {
    var active := Filter(products, IsActive);
    var merged := StockedOf(active, stockRows);
    assert x in merged;
    var i :| 0 <= i < |merged| && merged[i] == x;
    assert active[i] in active;
  }

  /** Every active product at or below its threshold is listed. */
  lemma LowStockListComplete(products: seq<Product>, stockRows: seq<Batch>, p: Product)
    requires p in products && IsActive(p) && StockOf(stockRows, p.id) <= p.lowStockThreshold
    ensures Stocked(p, StockOf(stockRows, p.id)) in LowStockList(products, stockRows)
  {
    var active := Filter(products, IsActive);
    var merged := StockedOf(active, stockRows);
    var low := Filter(merged, IsLow);
    assert p in active;
    var i :| 0 <= i < |active| && active[i] == p;
    assert merged[i] in low;
    assert merged[i] in multiset(LowStockList(products, stockRows));
  }

  /** The list runs from the least stock to the most. */
  lemma LowStockListSorted(products: seq<Product>, stockRows: seq<Batch>)
    ensures Sorted(LowStockList(products, stockRows), ByStock)
  {
    ByStockIsTotalPreorder();
    SortSorted(Filter(StockedOf(Filter(products, IsActive), stockRows), IsLow), ByStock);
  }

  /** Distinct product rows give a list without repeats. */
  lemma LowStockListNoDup(products: seq<Product>, stockRows: seq<Batch>)
    requires NoDup(products)
    ensures NoDup(LowStockList(products, stockRows))
  {
    var active := Filter(products, IsActive);
    var merged := StockedOf(active, stockRows);
    FilterNoDup(products, IsActive);
    forall i, j | 0 <= i < j < |merged| ensures merged[i] != merged[j] {
      assert merged[i].product == active[i] && merged[j].product == active[j];
    }
    FilterNoDup(merged, IsLow);
    NoDupPermutation(Filter(merged, IsLow), LowStockList(products, stockRows));
  }
}
