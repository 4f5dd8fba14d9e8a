/**
 * The day modal (`fetchDetails`): the sale rows and stock-ins of one selected
 * local day, grouped by product name, with the day's totals.
 */
module DailyStock {
  import opened Wrappers
  import opened Seqs
  import opened Grouping
  import opened DayKey
  import opened ProductService
  import opened Dashboard

  /** One product's line in the day's sales table. */
  datatype SaleGroup = SaleGroup(productName: string, sku: string, quantity: int, amount: int, grossProfit: int)

  /** One product's line in the day's stock-in table. */
  datatype StockInGroup = StockInGroup(productName: string, sku: string, quantity: int, totalCost: int)

  /** What the modal shows. */
  datatype Details = Details(
    saleLines: seq<SaleGroup>,
    stockInLines: seq<StockInGroup>,
    totalSalesAmount: int,
    totalGrossProfit: int,
    totalStockInCost: int)

  function StockInName(r: StockInRow): string { r.productName }
  function StockInSku(r: StockInRow): string { r.sku }
  function StockInQuantity(r: StockInRow): int { r.quantity }
  function TotalCost(r: StockInRow): int { r.totalCost }
  function SaleGroupName(g: SaleGroup): string { g.productName }
  function StockInGroupName(g: StockInGroup): string { g.productName }

  // ---------------------------------------------------------------------------
  // Sales of the day

  /** The group of the sale rows named n: the first row's sku and the summed figures. */
  function SaleGroupOf(rows: seq<SaleRow>, n: string): SaleGroup
  {
    SaleGroup(n, FirstOf(rows, SaleName, n, SaleSku),
      Total(rows, SaleName, n, SaleQuantity), Total(rows, SaleName, n, Amount), Total(rows, SaleName, n, GrossProfit))
  }

  /** One group per product name, in first-seen order. */
  function SaleGroups(rows: seq<SaleRow>): (r: seq<SaleGroup>)
    ensures |r| == |Names(rows, SaleName)|
    ensures forall j :: 0 <= j < |r| ==> r[j] == SaleGroupOf(rows, Names(rows, SaleName)[j])
  {
    var names := Names(rows, SaleName);
    seq(|names|, j requires 0 <= j < |names| => SaleGroupOf(rows, names[j]))
  }

  /** The existing line of the item's name, with the item's figures added. */
  function BumpSale(g: SaleGroup, item: SaleRow): SaleGroup
  {
    g.(quantity := g.quantity + item.quantity, amount := g.amount + item.amount, grossProfit := g.grossProfit + item.grossProfit)
  }

  /** The line pushed for a name not seen before. */
  function FreshSale(item: SaleRow): SaleGroup
  {
    SaleGroup(item.productName, item.sku, item.quantity, item.amount, item.grossProfit)
  }

  /** The `reduce` callback: add to the line already holding the name, or push a new line. */
  function AddSale(acc: seq<SaleGroup>, item: SaleRow): seq<SaleGroup>
  {
    match FindBy(acc, SaleGroupName, item.productName)
    case Some(j) => acc[j := BumpSale(acc[j], item)]
    case None => acc + [FreshSale(item)]
  }

  /** How one more row changes the group of each name. */
  lemma SaleGroupOfAppend(p: seq<SaleRow>, x: SaleRow, n: string)
    ensures n in Names(p, SaleName) && n != x.productName ==> SaleGroupOf(p + [x], n) == SaleGroupOf(p, n)
    ensures n in Names(p, SaleName) && n == x.productName ==> SaleGroupOf(p + [x], n) == BumpSale(SaleGroupOf(p, n), x)
    ensures n !in Names(p, SaleName) && n == x.productName ==> SaleGroupOf(p + [x], n) == FreshSale(x)
  {
    FirstOfAppend(p, x, SaleName, n, SaleSku);
    TotalAppend(p, x, SaleName, n, SaleQuantity);
    TotalAppend(p, x, SaleName, n, Amount);
    TotalAppend(p, x, SaleName, n, GrossProfit);
    if n !in Names(p, SaleName) {
      TotalAbsent(p, SaleName, n, SaleQuantity);
      TotalAbsent(p, SaleName, n, Amount);
      TotalAbsent(p, SaleName, n, GrossProfit);
    }
  }

  /** The name's line gets the row's figures; the other lines stay. */
  lemma AddSaleExisting(p: seq<SaleRow>, x: SaleRow, j: nat)
    requires j < |Names(p, SaleName)| && Names(p, SaleName)[j] == x.productName
    ensures AddSale(SaleGroups(p), x) == SaleGroups(p + [x])
  {
    var acc, names := SaleGroups(p), Names(p, SaleName);
    NamesAppend(p, x, SaleName);
    assert forall k :: 0 <= k < |acc| ==> SaleGroupName(acc[k]) == names[k];
    FindByLinedUp(acc, SaleGroupName, names, x.productName);
    var next := SaleGroups(p + [x]);
    forall k | 0 <= k < |next| ensures next[k] == acc[j := BumpSale(acc[j], x)][k] {
      SaleGroupOfAppend(p, x, names[k]);
      if k != j {
        assert names[k] != names[j];
      }
    }
  }

  /** A name not seen before gets a new line at the end. */
  lemma AddSaleNew(p: seq<SaleRow>, x: SaleRow)
    requires x.productName !in Names(p, SaleName)
    ensures AddSale(SaleGroups(p), x) == SaleGroups(p + [x])
  {
    var acc, names := SaleGroups(p), Names(p, SaleName);
    NamesAppend(p, x, SaleName);
    assert forall k :: 0 <= k < |acc| ==> SaleGroupName(acc[k]) == names[k];
    FindByLinedUp(acc, SaleGroupName, names, x.productName);
    var next := SaleGroups(p + [x]);
    forall k | 0 <= k < |next| ensures next[k] == (acc + [FreshSale(x)])[k] {
      if k < |acc| {
        SaleGroupOfAppend(p, x, names[k]);
      } else {
        SaleGroupOfAppend(p, x, x.productName);
      }
    }
  }

  /** Folding one more row into the groups of some rows gives the groups of the longer rows. */
  lemma AddSaleStep(p: seq<SaleRow>, x: SaleRow)
    ensures AddSale(SaleGroups(p), x) == SaleGroups(p + [x])
  {
    var names := Names(p, SaleName);
    if x.productName in names {
      var j :| 0 <= j < |names| && names[j] == x.productName;
      AddSaleExisting(p, x, j);
    } else {
      AddSaleNew(p, x);
    }
  }

  /** The `filteredSales.reduce` that groups the day's sale rows. */
  method GroupSales(rows: seq<SaleRow>) returns (acc: seq<SaleGroup>)
    ensures acc == SaleGroups(rows)
  {
    acc := [];
    for i := 0 to |rows|
      invariant acc == SaleGroups(rows[..i])
    {
      assert rows[..i + 1] == rows[..i] + [rows[i]];
      AddSaleStep(rows[..i], rows[i]);
      acc := AddSale(acc, rows[i]);
    }
    assert rows[..|rows|] == rows;
  }

  /** A product has a line iff some row of the day sold it, and no product has two lines. */
  lemma SaleGroupsExact(rows: seq<SaleRow>, n: string)
    ensures (exists j :: 0 <= j < |SaleGroups(rows)| && SaleGroups(rows)[j].productName == n)
        <==> (exists i :: 0 <= i < |rows| && rows[i].productName == n)
    ensures forall j, k :: 0 <= j < k < |SaleGroups(rows)| ==> SaleGroups(rows)[j].productName != SaleGroups(rows)[k].productName
  {
    var names := Names(rows, SaleName);
    var groups := SaleGroups(rows);
    if exists i :: 0 <= i < |rows| && rows[i].productName == n {
      var i :| 0 <= i < |rows| && rows[i].productName == n;
      assert SaleName(rows[i]) == n;
      assert n in names;
      var j :| 0 <= j < |names| && names[j] == n;
      assert groups[j].productName == n;
    }
    if exists j :: 0 <= j < |groups| && groups[j].productName == n {
      var j :| 0 <= j < |groups| && groups[j].productName == n;
      assert names[j] in names;
    }
  }

  /** Each line keeps the sku of the first of its rows, the one `find` by name returns. */
  lemma SaleGroupsKeepFirstSku(rows: seq<SaleRow>, j: nat)
    requires j < |SaleGroups(rows)|
    ensures var i := FindBy(rows, SaleName, SaleGroups(rows)[j].productName);
      i.Some? && SaleGroups(rows)[j].sku == rows[i.value].sku
  {
    var names := Names(rows, SaleName);
    assert names[j] in names;
    FirstOfIsFirst(rows, SaleName, names[j], SaleSku);
  }

  /** Grouping loses nothing: the lines' quantities, amounts and profits add up to the rows'. */
  lemma SaleGroupsPreserveSums(rows: seq<SaleRow>)
    ensures SumBy(SaleGroups(rows), (g: SaleGroup) => g.quantity) == SumBy(rows, SaleQuantity)
    ensures SumBy(SaleGroups(rows), (g: SaleGroup) => g.amount) == SumBy(rows, Amount)
    ensures SumBy(SaleGroups(rows), (g: SaleGroup) => g.grossProfit) == SumBy(rows, GrossProfit)
  {
    GroupsSum(SaleGroups(rows), (g: SaleGroup) => g.quantity, rows, SaleName, SaleQuantity);
    GroupsSum(SaleGroups(rows), (g: SaleGroup) => g.amount, rows, SaleName, Amount);
    GroupsSum(SaleGroups(rows), (g: SaleGroup) => g.grossProfit, rows, SaleName, GrossProfit);
  }

  // ---------------------------------------------------------------------------
  // Stock-ins of the day

  function StockInGroupOf(rows: seq<StockInRow>, n: string): StockInGroup
  {
    StockInGroup(n, FirstOf(rows, StockInName, n, StockInSku),
      Total(rows, StockInName, n, StockInQuantity), Total(rows, StockInName, n, TotalCost))
  }

  function StockInGroups(rows: seq<StockInRow>): (r: seq<StockInGroup>)
    ensures |r| == |Names(rows, StockInName)|
    ensures forall j :: 0 <= j < |r| ==> r[j] == StockInGroupOf(rows, Names(rows, StockInName)[j])
  {
    var names := Names(rows, StockInName);
    seq(|names|, j requires 0 <= j < |names| => StockInGroupOf(rows, names[j]))
  }

  function BumpStockIn(g: StockInGroup, item: StockInRow): StockInGroup
  {
    g.(quantity := g.quantity + item.quantity, totalCost := g.totalCost + item.totalCost)
  }

  function FreshStockIn(item: StockInRow): StockInGroup
  {
    StockInGroup(item.productName, item.sku, item.quantity, item.totalCost)
  }

  /** The `reduce` callback for stock-ins: add to the line holding the name, or push a new line. */
  function AddStockIn(acc: seq<StockInGroup>, item: StockInRow): seq<StockInGroup>
  {
    match FindBy(acc, StockInGroupName, item.productName)
    case Some(j) => acc[j := BumpStockIn(acc[j], item)]
    case None => acc + [FreshStockIn(item)]
  }

  lemma StockInGroupOfAppend(p: seq<StockInRow>, x: StockInRow, n: string)
    ensures n in Names(p, StockInName) && n != x.productName ==> StockInGroupOf(p + [x], n) == StockInGroupOf(p, n)
    ensures n in Names(p, StockInName) && n == x.productName ==> StockInGroupOf(p + [x], n) == BumpStockIn(StockInGroupOf(p, n), x)
    ensures n !in Names(p, StockInName) && n == x.productName ==> StockInGroupOf(p + [x], n) == FreshStockIn(x)
  {
    FirstOfAppend(p, x, StockInName, n, StockInSku);
    TotalAppend(p, x, StockInName, n, StockInQuantity);
    TotalAppend(p, x, StockInName, n, TotalCost);
    if n !in Names(p, StockInName) {
      TotalAbsent(p, StockInName, n, StockInQuantity);
      TotalAbsent(p, StockInName, n, TotalCost);
    }
  }

  /** The name's line gets the row's figures; the other lines stay. */
  lemma AddStockInExisting(p: seq<StockInRow>, x: StockInRow, j: nat)
    requires j < |Names(p, StockInName)| && Names(p, StockInName)[j] == x.productName
    ensures AddStockIn(StockInGroups(p), x) == StockInGroups(p + [x])
  {
    var acc, names := StockInGroups(p), Names(p, StockInName);
    NamesAppend(p, x, StockInName);
    assert forall k :: 0 <= k < |acc| ==> StockInGroupName(acc[k]) == names[k];
    FindByLinedUp(acc, StockInGroupName, names, x.productName);
    var next := StockInGroups(p + [x]);
    forall k | 0 <= k < |next| ensures next[k] == acc[j := BumpStockIn(acc[j], x)][k] {
      StockInGroupOfAppend(p, x, names[k]);
      if k != j {
        assert names[k] != names[j];
      }
    }
  }

  /** A name not seen before gets a new line at the end. */
  lemma AddStockInNew(p: seq<StockInRow>, x: StockInRow)
    requires x.productName !in Names(p, StockInName)
    ensures AddStockIn(StockInGroups(p), x) == StockInGroups(p + [x])
  {
    var acc, names := StockInGroups(p), Names(p, StockInName);
    NamesAppend(p, x, StockInName);
    assert forall k :: 0 <= k < |acc| ==> StockInGroupName(acc[k]) == names[k];
    FindByLinedUp(acc, StockInGroupName, names, x.productName);
    var next := StockInGroups(p + [x]);
    forall k | 0 <= k < |next| ensures next[k] == (acc + [FreshStockIn(x)])[k] {
      if k < |acc| {
        StockInGroupOfAppend(p, x, names[k]);
      } else {
        StockInGroupOfAppend(p, x, x.productName);
      }
    }
  }

  /** Folding one more row into the groups of some rows gives the groups of the longer rows. */
  lemma AddStockInStep(p: seq<StockInRow>, x: StockInRow)
    ensures AddStockIn(StockInGroups(p), x) == StockInGroups(p + [x])
  {
    var names := Names(p, StockInName);
    if x.productName in names {
      var j :| 0 <= j < |names| && names[j] == x.productName;
      AddStockInExisting(p, x, j);
    } else {
      AddStockInNew(p, x);
    }
  }

  /** The `filteredStockIn.reduce` that groups the day's stock-ins. */
  method GroupStockIns(rows: seq<StockInRow>) returns (acc: seq<StockInGroup>)
    ensures acc == StockInGroups(rows)
  {
    acc := [];
    for i := 0 to |rows|
      invariant acc == StockInGroups(rows[..i])
    {
      assert rows[..i + 1] == rows[..i] + [rows[i]];
      AddStockInStep(rows[..i], rows[i]);
      acc := AddStockIn(acc, rows[i]);
    }
    assert rows[..|rows|] == rows;
  }

  /** Grouping stock-ins loses nothing: the groups' quantities and costs add up to the rows'. */
  lemma StockInGroupsPreserveSums(rows: seq<StockInRow>)
    ensures SumBy(StockInGroups(rows), (g: StockInGroup) => g.quantity) == SumBy(rows, StockInQuantity)
    ensures SumBy(StockInGroups(rows), (g: StockInGroup) => g.totalCost) == SumBy(rows, TotalCost)
  {
    GroupsSum(StockInGroups(rows), (g: StockInGroup) => g.quantity, rows, StockInName, StockInQuantity);
    GroupsSum(StockInGroups(rows), (g: StockInGroup) => g.totalCost, rows, StockInName, TotalCost);
  }

  // ---------------------------------------------------------------------------
  // The modal

  function SaleOnDay(dayOf: int -> string, key: string): SaleRow -> bool
  {
    (r: SaleRow) => dayOf(r.date) == key
  }

  function StockInOnDay(dayOf: int -> string, key: string): StockInRow -> bool
  {
    (r: StockInRow) => dayOf(r.date) == key
  }

  /**
   * `fetchDetails`: with no selected date, or when either report query fails,
   * nothing is shown anew; otherwise the rows whose local day key is the
   * selected day's are grouped, and the totals are summed over those rows.
   */
  method FetchDetails(previous: Details, selected: Option<Date>, allSales: Option<seq<SaleRow>>,
                      allStockIns: Option<seq<StockInRow>>, local: int -> Date)
    returns (d: Details)
    ensures selected.None? || allSales.None? || allStockIns.None? ==> d == previous
    ensures selected.Some? && allSales.Some? && allStockIns.Some? ==>
      var key := Key(selected.value);
      var sales := Filter(allSales.value, SaleOnDay(DayFn(local), key));
      var stockIns := Filter(allStockIns.value, StockInOnDay(DayFn(local), key));
      d == Details(SaleGroups(sales), StockInGroups(stockIns),
                   SumBy(sales, Amount), SumBy(sales, GrossProfit), SumBy(stockIns, TotalCost))
  {
    if selected.None? || allSales.None? || allStockIns.None? {
      return previous;
    }
    var key := Key(selected.value);
    var dayOf := DayFn(local);
    var sales := Filter(allSales.value, SaleOnDay(dayOf, key));
    var saleLines := GroupSales(sales);
    var stockIns := Filter(allStockIns.value, StockInOnDay(dayOf, key));
    var stockInLines := GroupStockIns(stockIns);
    d := Details(saleLines, stockInLines, SumBy(sales, Amount), SumBy(sales, GrossProfit), SumBy(stockIns, TotalCost));
  }

  /**
   * The modal's totals agree with its tables: total sales and total profit are the
   * sums over the grouped sale lines, and the stock-in cost the sum over the
   * grouped stock-in lines.
   */
  lemma DetailsTotalsMatchLines(sales: seq<SaleRow>, stockIns: seq<StockInRow>)
    ensures var d := Details(SaleGroups(sales), StockInGroups(stockIns),
                             SumBy(sales, Amount), SumBy(sales, GrossProfit), SumBy(stockIns, TotalCost));
      && d.totalSalesAmount == SumBy(d.saleLines, (g: SaleGroup) => g.amount)
      && d.totalGrossProfit == SumBy(d.saleLines, (g: SaleGroup) => g.grossProfit)
      && d.totalStockInCost == SumBy(d.stockInLines, (g: StockInGroup) => g.totalCost)
  {
    SaleGroupsPreserveSums(sales);
    StockInGroupsPreserveSums(stockIns);
  }
}
