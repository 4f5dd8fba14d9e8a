/**
 * The database the application talks to, as an in-memory store: one sequence per
 * table, and one method per kind of row insert or update the application issues.
 */
module Db {
  import opened Wrappers
  import opened Inventory

  /** `update stock_batches set remaining_quantity = v where id = id`. */
  function SetRemaining(bs: seq<Batch>, id: nat, v: int): (r: seq<Batch>)
    ensures |r| == |bs|
    ensures forall i :: 0 <= i < |bs| && i != id ==> r[i] == bs[i]
    ensures id < |bs| ==> r[id] == bs[id].(remaining := v)
  {
    if id < |bs| then bs[id := bs[id].(remaining := v)] else bs
  }

  /** `update products set ... where id = id`, the change given as a function of the row. */
  function UpdateProductRow(ps: seq<Product>, id: nat, f: Product -> Product): (r: seq<Product>)
    ensures |r| == |ps|
    ensures forall i :: 0 <= i < |ps| && i != id ==> r[i] == ps[i]
    ensures id < |ps| ==> r[id] == f(ps[id])
  {
    if id < |ps| then ps[id := f(ps[id])] else ps
  }

  /** Serial ids: every row's id is its position in its table. */
  ghost predicate SerialProducts(ps: seq<Product>) { forall i :: 0 <= i < |ps| ==> ps[i].id == i }
  ghost predicate SerialBatches(bs: seq<Batch>) { forall i :: 0 <= i < |bs| ==> bs[i].id == i }
  ghost predicate SerialSales(ss: seq<Sale>) { forall i :: 0 <= i < |ss| ==> ss[i].id == i }

  /**
   * A later state of the sales table keeps every sale of the earlier one, and a sale that
   * carries a cancellation stamp keeps the same row, stamp included.
   */
  ghost predicate KeepsStamps(before: seq<Sale>, after: seq<Sale>) {
    |before| <= |after| &&
    forall i :: 0 <= i < |before| && before[i].cancelledAt.Some? ==> after[i] == before[i]
  }

  /** Inserting sales rows keeps every stamp. */
  lemma AppendKeepsStamps(before: seq<Sale>, added: seq<Sale>)
    ensures KeepsStamps(before, before + added)
  {
  }

  /** Stamping a sale that had no stamp keeps every other stamp. */
  lemma StampKeepsStamps(ss: seq<Sale>, saleId: nat, at: int)
    requires saleId < |ss| && ss[saleId].cancelledAt.None?
    ensures KeepsStamps(ss, ss[saleId := ss[saleId].(cancelledAt := Some(at))])
  {
  }

  /** Over any sequence of writes that each keep the stamps, the stamps are kept. */
  lemma KeepsStampsTransitive(a: seq<Sale>, b: seq<Sale>, c: seq<Sale>)
    requires KeepsStamps(a, b) && KeepsStamps(b, c)
    ensures KeepsStamps(a, c)
  {
  }

  class Store {
    var products: seq<Product>
    var batches: seq<Batch>
    var sales: seq<Sale>
    var saleItems: seq<SaleItem>
    var history: seq<HistoryRow>

    ghost predicate Valid()
      reads this
    {
      SerialProducts(products) && SerialBatches(batches) && SerialSales(sales)
    }

    constructor ()
      ensures Valid()
      ensures products == [] && batches == [] && sales == [] && saleItems == [] && history == []
    {
      products, batches, sales, saleItems, history := [], [], [], [], [];
    }

    method InsertBatch(productId: nat, quantity: int, remaining: int, costPrice: int, receivedAt: int)
      returns (id: nat)
      requires Valid()
      modifies this`batches
      ensures Valid()
      ensures id == |old(batches)|
      ensures batches == old(batches) + [Batch(id, productId, quantity, remaining, costPrice, receivedAt)]
    {
      id := |batches|;
      batches := batches + [Batch(id, productId, quantity, remaining, costPrice, receivedAt)];
    }

    method UpdateBatchRemaining(id: nat, remaining: int)
      requires Valid()
      modifies this`batches
      ensures Valid()
      ensures batches == SetRemaining(old(batches), id, remaining)
    {
      batches := SetRemaining(batches, id, remaining);
    }

    method InsertSale(displayId: string, createdAt: int, totalAmount: int) returns (id: nat)
      requires Valid()
      modifies this`sales
      ensures Valid()
      ensures id == |old(sales)|
      ensures sales == old(sales) + [Sale(id, displayId, createdAt, totalAmount, None)]
      ensures KeepsStamps(old(sales), sales)
    {
      id := |sales|;
      sales := sales + [Sale(id, displayId, createdAt, totalAmount, None)];
    }

    method InsertSaleItem(item: SaleItem)
      modifies this`saleItems
      ensures saleItems == old(saleItems) + [item]
    {
      saleItems := saleItems + [item];
    }

    /** `update sales set cancelled_at = at where id = saleId`. */
    method MarkCancelled(saleId: nat, at: int)
      requires Valid()
      modifies this`sales
      ensures Valid()
      ensures saleId < |old(sales)| ==> sales == old(sales)[saleId := old(sales)[saleId].(cancelledAt := Some(at))]
      ensures saleId >= |old(sales)| ==> sales == old(sales)
    {
      if saleId < |sales| {
        sales := sales[saleId := sales[saleId].(cancelledAt := Some(at))];
      }
    }

    method UpdateProduct(id: nat, f: Product -> Product)
      requires Valid()
      requires forall p :: f(p).id == p.id
      modifies this`products
      ensures Valid()
      ensures products == UpdateProductRow(old(products), id, f)
    {
      products := UpdateProductRow(products, id, f);
    }

    method InsertHistory(row: HistoryRow)
      modifies this`history
      ensures history == old(history) + [row]
    {
      history := history + [row];
    }
  }
}
