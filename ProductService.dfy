/**
 * The product service: editing a product's unit and threshold with a change
 * record, repricing behind the below-cost confirmation, writing the change log,
 * archiving and unarchiving, and the sale and stock-in rows the reports read.
 */
module ProductService {
  import opened Wrappers
  import opened Inventory
  import opened Seqs
  import opened Sorting
  import opened Stock
  import opened Db
  import opened SaleForm
  import opened Sales

  datatype ServiceError = ProductNotFound | HasStock

  /** `attributeHistory`: a group is present only when that attribute changed. */
  datatype AttributeChanges = AttributeChanges(unit: Option<UnitChange>, threshold: Option<ThresholdChange>)

  /** What `updateProductPrice` answers: ask the user first, or done with the price change record. */
  datatype PriceOutcome = ShouldConfirm | PriceUpdated(priceHistory: Option<PriceChange>)

  function WithAttributes(unit: string, threshold: int): Product -> Product
  {
    (p: Product) => p.(unit := unit, lowStockThreshold := threshold)
  }

  function WithPrice(price: int): Product -> Product
  {
    (p: Product) => p.(sellingPrice := price)
  }

  function Archived(now: int): Product -> Product
  {
    (p: Product) => p.(archivedAt := Some(now))
  }

  function Unarchived(): Product -> Product
  {
    (p: Product) => p.(archivedAt := None)
  }

  /**
   * `updateProduct(id, { unit, low_stock_threshold })`: a missing product is an
   * error and changes nothing; otherwise the row takes the new unit and
   * threshold, and each is recorded old/new exactly when it differs from before.
   */
  method UpdateProduct(db: Store, id: nat, unit: string, threshold: int)
    returns (r: Result<AttributeChanges, ServiceError>)
    requires db.Valid()
    modifies db`products
    ensures db.Valid()
    ensures r.Failure? <==> id >= |old(db.products)|
    ensures r.Failure? ==> db.products == old(db.products)
    ensures r.Success? ==>
      && db.products == UpdateProductRow(old(db.products), id, WithAttributes(unit, threshold))
      && (r.value.unit.Some? <==> old(db.products)[id].unit != unit)
      && (r.value.unit.Some? ==> r.value.unit.value == UnitChange(old(db.products)[id].unit, unit))
      && (r.value.threshold.Some? <==> old(db.products)[id].lowStockThreshold != threshold)
      && (r.value.threshold.Some? ==>
            r.value.threshold.value == ThresholdChange(old(db.products)[id].lowStockThreshold, threshold))
  {
    if id >= |db.products| {
      return Failure(ProductNotFound);
    }
    var before := db.products[id];
    db.UpdateProduct(id, WithAttributes(unit, threshold));
    var after := db.products[id];
    var unitChange: Option<UnitChange> := None;
    var thresholdChange: Option<ThresholdChange> := None;
    if before.unit != after.unit {
      unitChange := Some(UnitChange(before.unit, after.unit));
    }
    if before.lowStockThreshold != after.lowStockThreshold {
      thresholdChange := Some(ThresholdChange(before.lowStockThreshold, after.lowStockThreshold));
    }
    return Success(AttributeChanges(unitChange, thresholdChange));
  }

  /**
   * `select cost_price from stock_batches where product_id = pid and
   * remaining_quantity > 0 order by cost_price desc limit 1`: None when no batch
   * of pid has stock left.
   */
  function HighestCost(bs: seq<Batch>, pid: nat): (r: Option<int>)
    ensures r.None? <==> forall i :: 0 <= i < |bs| ==> !Sellable(pid)(bs[i])
    ensures r.Some? ==> exists i :: 0 <= i < |bs| && Sellable(pid)(bs[i]) && bs[i].costPrice == r.value
    ensures r.Some? ==> forall i :: 0 <= i < |bs| && Sellable(pid)(bs[i]) ==> bs[i].costPrice <= r.value
    decreases |bs|
  {
    if |bs| == 0 then None
    else
      var n := |bs| - 1;
      var rest := HighestCost(bs[..n], pid);
      assert forall i :: 0 <= i < n ==> bs[..n][i] == bs[i];
      if !Sellable(pid)(bs[n]) then rest
      else if rest.None? || rest.value < bs[n].costPrice then Some(bs[n].costPrice)
      else rest
  }

  /** The new price is below the cost of some batch of the product that still has stock. */
  ghost predicate BelowSomeCost(bs: seq<Batch>, pid: nat, newPrice: int)
  {
    exists i :: 0 <= i < |bs| && Sellable(pid)(bs[i]) && newPrice < bs[i].costPrice
  }

  /** Comparing against the highest cost alone decides whether some batch costs more. */
  lemma HighestCostDecides(bs: seq<Batch>, pid: nat, newPrice: int)
    ensures (HighestCost(bs, pid).Some? && newPrice < HighestCost(bs, pid).value) <==> BelowSomeCost(bs, pid, newPrice)
  {
  }

  /**
   * `updateProductPrice(product, newPrice, forceUpdate)`. Unforced, a price below
   * the cost of some batch still in stock asks for confirmation and writes
   * nothing; a price equal to that cost, or a product with no stock, passes.
   * Otherwise the price is stored and recorded old/new exactly when it differs
   * from the product as the caller last read it.
   */
  method UpdateProductPrice(db: Store, product: Product, newPrice: int, force: bool)
    returns (r: PriceOutcome)
    requires db.Valid()
    modifies db`products
    ensures db.Valid()
    ensures r.ShouldConfirm? <==> !force && BelowSomeCost(db.batches, product.id, newPrice)
    ensures r.ShouldConfirm? ==> db.products == old(db.products)
    ensures r.PriceUpdated? ==>
      && db.products == UpdateProductRow(old(db.products), product.id, WithPrice(newPrice))
      && (r.priceHistory.Some? <==> product.sellingPrice != newPrice)
      && (r.priceHistory.Some? ==> r.priceHistory.value == PriceChange(product.sellingPrice, newPrice))
  {
    if !force {
      var maxCost := HighestCost(db.batches, product.id);
      HighestCostDecides(db.batches, product.id, newPrice);
      if maxCost.Some? && newPrice < maxCost.value {
        return ShouldConfirm;
      }
    }
    var priceHistory: Option<PriceChange> := None;
    if product.sellingPrice != newPrice {
      priceHistory := Some(PriceChange(product.sellingPrice, newPrice));
    }
    db.UpdateProduct(product.id, WithPrice(newPrice));
    return PriceUpdated(priceHistory);
  }

  /**
   * `logProductChanges`: one change-log row carrying exactly the groups present,
   * written only when at least one group is present.
   */
  method LogProductChanges(db: Store, productId: nat, price: Option<PriceChange>, attributes: AttributeChanges)
    modifies db`history
    ensures price.Some? || attributes.unit.Some? || attributes.threshold.Some? ==>
      db.history == old(db.history) + [HistoryRow(productId, price, attributes.unit, attributes.threshold)]
    ensures price.None? && attributes.unit.None? && attributes.threshold.None? ==> db.history == old(db.history)
  {
    var payload := HistoryRow(productId, None, None, None);
    var hasChanges := false;
    if price.Some? {
      payload := payload.(price := price);
      hasChanges := true;
    }
    if attributes.unit.Some? {
      payload := payload.(unit := attributes.unit);
      hasChanges := true;
    }
    if attributes.threshold.Some? {
      payload := payload.(threshold := attributes.threshold);
      hasChanges := true;
    }
    if hasChanges {
      db.InsertHistory(payload);
    }
  }

  /** The `stock.reduce` over the product's batches. */
  method SumStock(bs: seq<Batch>, pid: nat) returns (total: int)
    ensures total == StockOf(bs, pid)
  {
    total := 0;
    for i := 0 to |bs|
      invariant total == StockOf(bs[..i], pid)
    {
      assert bs[..i + 1] == bs[..i] + [bs[i]];
      SumByAppend(bs[..i], bs[i], Contribution(pid));
      if bs[i].productId == pid {
        total := total + bs[i].remaining;
      }
    }
    assert bs[..|bs|] == bs;
  }

  /**
   * `archiveProduct`: refused, with nothing written, while the product's summed
   * remaining quantity is positive; otherwise the row is stamped archived.
   */
  method ArchiveProduct(db: Store, pid: nat, now: int) returns (r: Result<(), ServiceError>)
    requires db.Valid()
    modifies db`products
    ensures db.Valid()
    ensures r.Failure? <==> StockOf(db.batches, pid) > 0
    ensures r.Failure? ==> r.error == HasStock && db.products == old(db.products)
    ensures r.Success? ==> db.products == UpdateProductRow(old(db.products), pid, Archived(now))
  {
    var totalStock := SumStock(db.batches, pid);
    if totalStock > 0 {
      return Failure(HasStock);
    }
    db.UpdateProduct(pid, Archived(now));
    return Success(());
  }

  /** `unarchiveProduct`: clears the archive stamp. */
  method UnarchiveProduct(db: Store, pid: nat)
    requires db.Valid()
    modifies db`products
    ensures db.Valid()
    ensures db.products == UpdateProductRow(old(db.products), pid, Unarchived())
  {
    db.UpdateProduct(pid, Unarchived());
  }

  /** Unarchiving undoes archiving: an active product comes back exactly as it was. */
  lemma {:induction false} UnarchiveUndoesArchive(ps: seq<Product>, pid: nat, now: int)
    requires pid < |ps| && ps[pid].archivedAt.None?
    ensures UpdateProductRow(UpdateProductRow(ps, pid, Archived(now)), pid, Unarchived()) == ps
  {
    var once := UpdateProductRow(ps, pid, Archived(now));
    var twice := UpdateProductRow(once, pid, Unarchived());
    assert twice[pid] == ps[pid];
    assert forall i :: 0 <= i < |ps| ==> twice[i] == ps[i];
  }

  // ---------------------------------------------------------------------------
  // Report rows

  /** One row of `getSaleItems`. */
  datatype SaleRow = SaleRow(
    productName: string,
    sku: string,
    quantity: int,
    sellingPrice: int,
    amount: int,
    grossProfit: int,
    date: int)

  /** One row of `getStockInItems`. */
  datatype StockInRow = StockInRow(
    productName: string,
    sku: string,
    quantity: int,
    itemCost: int,
    totalCost: int,
    date: int)

  /** A sale item together with the sale it belongs to. */
  datatype LiveLine = LiveLine(sale: Sale, item: SaleItem)

  function NotCancelled(s: Sale): bool { s.cancelledAt.None? }

  function CreatedLast(a: Sale, b: Sale): bool { a.createdAt >= b.createdAt }

  /** `products(name, sku)`: the joined product, by its serial id. */
  function Lookup(products: seq<Product>, id: nat): (r: Option<Product>)
    ensures r.Some? <==> id < |products|
    ensures r.Some? ==> r.value == products[id]
  {
    if id < |products| then Some(products[id]) else None
  }

  function LinesOf(s: Sale, items: seq<SaleItem>): seq<LiveLine>
  {
    var mine := ItemsOf(items, s.id);
    seq(|mine|, k requires 0 <= k < |mine| => LiveLine(s, mine[k]))
  }

  /** `sales.flatMap(sale => sale.sale_items.map(...))` before the mapping. */
  function LinesOfSales(ss: seq<Sale>, items: seq<SaleItem>): seq<LiveLine>
    decreases |ss|
  {
    if |ss| == 0 then [] else LinesOf(ss[0], items) + LinesOfSales(ss[1..], items)
  }

  /** Non-cancelled sales, newest first, each followed by its items. */
  function LiveLines(sales: seq<Sale>, items: seq<SaleItem>): seq<LiveLine>
  {
    LinesOfSales(Sort(Filter(sales, NotCancelled), CreatedLast), items)
  }

  function LineAmountOf(l: LiveLine): int { l.item.quantity * l.item.sellingPrice }

  function LineCostOf(l: LiveLine): int { l.item.costPrice }

  function ToSaleRow(products: seq<Product>): LiveLine -> Option<SaleRow>
  {
    (l: LiveLine) =>
      match Lookup(products, l.item.productId)
      case None => None
      case Some(p) =>
        Some(SaleRow(p.name, p.sku, l.item.quantity, l.item.sellingPrice,
                     l.item.quantity * l.item.sellingPrice,
                     l.item.quantity * l.item.sellingPrice - l.item.costPrice,
                     l.sale.createdAt))
  }

  /** `getSaleItems`; None where the JavaScript would fail on an item whose product is missing. */
  function GetSaleItems(sales: seq<Sale>, items: seq<SaleItem>, products: seq<Product>): Option<seq<SaleRow>>
  {
    Traverse(LiveLines(sales, items), ToSaleRow(products))
  }

  function Amount(r: SaleRow): int { r.amount }
  function GrossProfit(r: SaleRow): int { r.grossProfit }
  function SaleName(r: SaleRow): string { r.productName }
  function SaleSku(r: SaleRow): string { r.sku }
  function SaleQuantity(r: SaleRow): int { r.quantity }

  /** Every line pairs a sale of ss with one of that sale's items. */
  lemma {:induction false} LinesOfSalesSound(ss: seq<Sale>, items: seq<SaleItem>)
    ensures forall k :: 0 <= k < |LinesOfSales(ss, items)| ==>
      var l := LinesOfSales(ss, items)[k];
      l.sale in ss && l.item in items && l.item.saleId == l.sale.id
    decreases |ss|
  {
    if |ss| > 0 {
      LinesOfSalesSound(ss[1..], items);
      var head := LinesOf(ss[0], items);
      var all := LinesOfSales(ss, items);
      forall k | 0 <= k < |all|
        ensures all[k].sale in ss && all[k].item in items && all[k].item.saleId == all[k].sale.id
      {
        if k < |head| {
          assert all[k] == head[k];
          assert ItemsOf(items, ss[0].id)[k] in items;
        } else {
          assert all[k] == LinesOfSales(ss[1..], items)[k - |head|];
          var m :| 0 <= m < |ss| - 1 && ss[1..][m] == all[k].sale;
          assert ss[m + 1] == all[k].sale;
        }
      }
    }
  }

  /** Every item of every sale of ss appears, paired with that sale. */
  lemma {:induction false} LinesOfSalesComplete(ss: seq<Sale>, items: seq<SaleItem>, s: Sale, it: SaleItem)
    requires s in ss && it in items && it.saleId == s.id
    ensures LiveLine(s, it) in LinesOfSales(ss, items)
    decreases |ss|
  {
    if ss[0] == s {
      var mine := ItemsOf(items, s.id);
      assert it in mine;
      var k :| 0 <= k < |mine| && mine[k] == it;
      assert LinesOf(s, items)[k] == LiveLine(s, it);
    } else {
      LinesOfSalesComplete(ss[1..], items, s, it);
    }
  }

  /**
   * The report holds one row per item of a non-cancelled sale, and nothing
   * else: rows of cancelled sales are dropped, every item of a live sale appears.
   */
  lemma LiveLinesExact(sales: seq<Sale>, items: seq<SaleItem>, s: Sale, it: SaleItem)
    ensures LiveLine(s, it) in LiveLines(sales, items) <==>
      s in sales && s.cancelledAt.None? && it in items && it.saleId == s.id
  {
    var live := Filter(sales, NotCancelled);
    var sorted := Sort(live, CreatedLast);
    LinesOfSalesSound(sorted, items);
    if LiveLine(s, it) in LiveLines(sales, items) {
      var k :| 0 <= k < |LiveLines(sales, items)| && LiveLines(sales, items)[k] == LiveLine(s, it);
      assert s in multiset(sorted);
      assert s in live;
    }
    if s in sales && s.cancelledAt.None? && it in items && it.saleId == s.id {
      assert s in live;
      assert s in multiset(sorted);
      LinesOfSalesComplete(sorted, items, s, it);
    }
  }

  /**
   * Each row is its line's figures: amount = quantity × unit selling price, and
   * gross profit = amount − the line's cost of goods sold; the date is the sale's.
   */
  lemma SaleRowFigures(sales: seq<Sale>, items: seq<SaleItem>, products: seq<Product>, k: nat)
    requires GetSaleItems(sales, items, products).Some?
    requires k < |LiveLines(sales, items)|
    ensures var rows := GetSaleItems(sales, items, products).value;
      var l := LiveLines(sales, items)[k];
      && |rows| == |LiveLines(sales, items)|
      && rows[k].quantity == l.item.quantity
      && rows[k].amount == l.item.quantity * l.item.sellingPrice
      && rows[k].grossProfit == rows[k].amount - l.item.costPrice
      && rows[k].date == l.sale.createdAt
      && rows[k].productName == products[l.item.productId].name
  {
  }

  /** Summed over the report, gross profit is revenue minus cost of goods sold. */
  lemma {:induction false} ProfitIsRevenueMinusCost(lines: seq<LiveLine>, products: seq<Product>)
    requires Traverse(lines, ToSaleRow(products)).Some?
    ensures var rows := Traverse(lines, ToSaleRow(products)).value;
      SumBy(rows, GrossProfit) == SumBy(rows, Amount) - SumBy(lines, LineCostOf)
    decreases |lines|
  {
    if |lines| > 0 {
      var n := |lines| - 1;
      var rows := Traverse(lines, ToSaleRow(products)).value;
      var front := Traverse(lines[..n], ToSaleRow(products));
      assert rows == front.value + [rows[n]];
      ProfitIsRevenueMinusCost(lines[..n], products);
      assert rows[n].grossProfit == rows[n].amount - lines[n].item.costPrice;
    }
  }

  function ToStockInRow(products: seq<Product>): Batch -> Option<StockInRow>
  {
    (b: Batch) =>
      match Lookup(products, b.productId)
      case None => None
      case Some(p) => Some(StockInRow(p.name, p.sku, b.quantity, b.costPrice, b.quantity * b.costPrice, b.receivedAt))
  }

  /** `getStockInItems`: every batch, newest first; None where a product is missing. */
  function GetStockInItems(batches: seq<Batch>, products: seq<Product>): Option<seq<StockInRow>>
  {
    Traverse(Sort(batches, ReceivedLast), ToStockInRow(products))
  }

  /** The row states batch b's product name and sku, received quantity, unit cost, their product and receipt time. */
  predicate RowOfBatch(row: StockInRow, b: Batch, products: seq<Product>)
  {
    && b.productId < |products|
    && row.productName == products[b.productId].name && row.sku == products[b.productId].sku
    && row.quantity == b.quantity && row.itemCost == b.costPrice
    && row.totalCost == b.quantity * b.costPrice && row.date == b.receivedAt
  }

  /** rows lists the batches of `order`, one row per batch, position by position. */
  ghost predicate ListsBatches(rows: seq<StockInRow>, order: seq<Batch>, products: seq<Product>)
  {
    |rows| == |order| && forall k :: 0 <= k < |rows| ==> RowOfBatch(rows[k], order[k], products)
  }

  /**
   * The report fails exactly when some batch's product is missing. Otherwise it
   * lists every batch exactly once (the rows follow a reordering of the batches),
   * newest first, each costing the quantity RECEIVED at its unit cost (not what
   * remains of it) and naming its product.
   */
  lemma StockInRowsFacts(batches: seq<Batch>, products: seq<Product>)
    ensures GetStockInItems(batches, products).Some? <==> forall b :: b in batches ==> b.productId < |products|
    ensures GetStockInItems(batches, products).Some? ==>
      var rows := GetStockInItems(batches, products).value;
      && (exists order :: multiset(order) == multiset(batches) && ListsBatches(rows, order, products))
      && (forall k, j :: 0 <= k < j < |rows| ==> rows[k].date >= rows[j].date)
  {
    var sorted := Sort(batches, ReceivedLast);
    var f := ToStockInRow(products);
    assert forall b :: b in batches <==> b in sorted by {
      assert forall b :: b in batches <==> b in multiset(batches);
    }
    if GetStockInItems(batches, products).Some? {
      var rows := GetStockInItems(batches, products).value;
      ReceivedLastIsTotalPreorder();
      SortSorted(batches, ReceivedLast);
      forall k | 0 <= k < |rows| ensures RowOfBatch(rows[k], sorted[k], products) {
        assert f(sorted[k]) == Some(rows[k]);
      }
      assert ListsBatches(rows, sorted, products);
      forall b | b in batches ensures b.productId < |products| {
        var k :| 0 <= k < |sorted| && sorted[k] == b;
        assert f(sorted[k]).Some?;
      }
    } else {
      var k :| 0 <= k < |sorted| && f(sorted[k]).None?;
      assert sorted[k] in batches;
    }
  }
}
