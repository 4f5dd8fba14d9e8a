/**
 * A product's stock on hand: the sum of remaining quantities over its batches,
 * accumulated into a per-product map the way the product list, the low-stock
 * panel and the sale form's product picker all do.
 */
module Stock {
  import opened Inventory
  import opened Seqs

  function OfProduct(pid: nat): Batch -> bool
  {
    (b: Batch) => b.productId == pid
  }

  /** What one batch adds to product pid's stock. */
  function Contribution(pid: nat): Batch -> int
  {
    (b: Batch) => if b.productId == pid then b.remaining else 0
  }

  /** Sum of remaining_quantity over the batches of product pid (0 when it has none). */
  function StockOf(bs: seq<Batch>, pid: nat): int
  {
    SumBy(bs, Contribution(pid))
  }

  /** The value of `stockMap[p.id] || 0`. */
  function TotalStock(stockMap: map<nat, int>, pid: nat): int
  {
    if pid in stockMap then stockMap[pid] else 0
  }

  /** A product's stock paired with the product, as `{ ...p, total_stock }` builds it. */
  datatype Stocked = Stocked(product: Product, stock: int)

  function Merge(products: seq<Product>, stockMap: map<nat, int>): seq<Stocked>
  {
    seq(|products|, i requires 0 <= i < |products| => Stocked(products[i], TotalStock(stockMap, products[i].id)))
  }

  /** Each product paired with its summed remaining quantity over the batch rows. */
  function StockedOf(products: seq<Product>, rows: seq<Batch>): (r: seq<Stocked>)
    ensures |r| == |products|
    ensures forall i :: 0 <= i < |products| ==> r[i] == Stocked(products[i], StockOf(rows, products[i].id))
  {
    seq(|products|, i requires 0 <= i < |products| => Stocked(products[i], StockOf(rows, products[i].id)))
  }

  /** Merging with the accumulated map is pairing each product with its stock (0 when it has no batch). */
  lemma MergeIsStockedOf(products: seq<Product>, stockMap: map<nat, int>, rows: seq<Batch>)
    requires forall pid :: TotalStock(stockMap, pid) == StockOf(rows, pid)
    ensures Merge(products, stockMap) == StockedOf(products, rows)
  {
  }

  function IsActive(p: Product): bool { p.archivedAt.None? }

  /**
   * The `stockData.forEach` accumulation: a key for every product that has a
   * batch, holding the sum of its batches' remaining quantities.
   */
  method BuildStockMap(rows: seq<Batch>) returns (stockMap: map<nat, int>)
    ensures forall pid :: pid in stockMap <==> exists i :: 0 <= i < |rows| && rows[i].productId == pid
    ensures forall pid :: TotalStock(stockMap, pid) == StockOf(rows, pid)
  {
    stockMap := map[];
    for i := 0 to |rows|
      invariant forall pid :: pid in stockMap <==> exists j :: 0 <= j < i && rows[j].productId == pid
      invariant forall pid :: TotalStock(stockMap, pid) == StockOf(rows[..i], pid)
    {
      var row := rows[i];
      var before := if row.productId in stockMap then stockMap[row.productId] else 0;
      forall pid ensures StockOf(rows[..i + 1], pid) == StockOf(rows[..i], pid) + Contribution(pid)(row) {
        assert rows[..i + 1] == rows[..i] + [row];
        SumByAppend(rows[..i], row, Contribution(pid));
      }
      stockMap := stockMap[row.productId := before + row.remaining];
    }
    assert rows[..|rows|] == rows;
  }

  /** A product with no batches has stock 0. */
  lemma {:induction false} StockOfAbsent(bs: seq<Batch>, pid: nat)
    requires forall i :: 0 <= i < |bs| ==> bs[i].productId != pid
    ensures StockOf(bs, pid) == 0
    decreases |bs|
  {
    if |bs| > 0 {
      StockOfAbsent(bs[..|bs| - 1], pid);
    }
  }

  /** Two batch tables that agree on every batch of pid give pid the same stock. */
  lemma {:induction false} StockOfAgree(a: seq<Batch>, b: seq<Batch>, pid: nat)
    requires |a| == |b|
    requires forall i :: 0 <= i < |a| ==> a[i].productId == b[i].productId
    requires forall i :: 0 <= i < |a| && a[i].productId == pid ==> a[i] == b[i]
    ensures StockOf(a, pid) == StockOf(b, pid)
    decreases |a|
  {
    if |a| > 0 {
      StockOfAgree(a[..|a| - 1], b[..|b| - 1], pid);
    }
  }

  /** StockOf is the sum of remaining quantity over the product's batches alone. */
  lemma {:induction false} StockOfIsSumOfFilter(bs: seq<Batch>, pid: nat)
    ensures StockOf(bs, pid) == SumBy(Filter(bs, OfProduct(pid)), Remaining)
    decreases |bs|
  {
    if |bs| > 0 {
      var bs' := bs[..|bs| - 1];
      var x := bs[|bs| - 1];
      assert bs == bs' + [x];
      StockOfIsSumOfFilter(bs', pid);
      if x.productId == pid {
        SumByAppend(Filter(bs', OfProduct(pid)), x, Remaining);
      }
    }
  }
}
