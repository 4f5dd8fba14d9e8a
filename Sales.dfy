/**
 * The sales list: cancelling a sale, which gives each line's quantity back to
 * the product's most recently received batch, the 24-hour cancel window and the
 * sale-number filter.
 */
module Sales {
  import opened Wrappers
  import opened Inventory
  import opened Seqs
  import opened Sorting
  import opened Stock
  import opened Db
  import opened Text
  import opened Paging

  const PageSize: nat := 10
  const DayMs: int := 86_400_000

  function ItemOf(saleId: nat): SaleItem -> bool
  {
    (it: SaleItem) => it.saleId == saleId
  }

  /** `select * from sale_items where sale_id = saleId`. */
  function ItemsOf(items: seq<SaleItem>, saleId: nat): seq<SaleItem>
  {
    Filter(items, ItemOf(saleId))
  }

  function ReceivedLast(a: Batch, b: Batch): bool { a.receivedAt >= b.receivedAt }

  lemma ReceivedLastIsTotalPreorder()
    ensures TotalPreorder(ReceivedLast)
  {
  }

  /** `select * from stock_batches where product_id = pid order by received_at desc`. */
  function NewestFirst(bs: seq<Batch>, pid: nat): seq<Batch>
  {
    Sort(Filter(bs, OfProduct(pid)), ReceivedLast)
  }

  ghost predicate HasBatch(bs: seq<Batch>, pid: nat)
  {
    exists i :: 0 <= i < |bs| && bs[i].productId == pid
  }

  /** Row k is a batch of pid received no earlier than any other batch of pid. */
  ghost predicate Newest(bs: seq<Batch>, pid: nat, k: nat)
  {
    && k < |bs| && bs[k].productId == pid
    && forall i :: 0 <= i < |bs| && bs[i].productId == pid ==> bs[i].receivedAt <= bs[k].receivedAt
  }

  /** Same rows in the same places, each keeping its product. */
  ghost predicate SameProducts(a: seq<Batch>, b: seq<Batch>)
  {
    |a| == |b| && forall i :: 0 <= i < |a| ==> a[i].productId == b[i].productId
  }

  /**
   * What restoring one sale item does to the batch table: a positive quantity is
   * added to the first batch of the newest-first list, nothing otherwise.
   */
  function CreditNewest(bs: seq<Batch>, pid: nat, q: int): seq<Batch>
  {
    var sel := NewestFirst(bs, pid);
    if q <= 0 || |sel| == 0 then bs else SetRemaining(bs, sel[0].id, sel[0].remaining + q)
  }

  /** Restoring every item of a sale, in order. */
  function CreditAll(bs: seq<Batch>, items: seq<SaleItem>): seq<Batch>
    decreases |items|
  {
    if |items| == 0 then bs
    else
      var n := |items| - 1;
      CreditNewest(CreditAll(bs, items[..n]), items[n].productId, items[n].quantity)
  }

  /** The newest-first list is empty iff pid has no batch, and its head is the table's newest row of pid. */
  lemma NewestFirstFacts(bs: seq<Batch>, pid: nat)
    requires SerialBatches(bs)
    ensures var sel := NewestFirst(bs, pid);
      && (|sel| == 0 <==> !HasBatch(bs, pid))
      && (|sel| > 0 ==> sel[0].id < |bs| && bs[sel[0].id] == sel[0] && Newest(bs, pid, sel[0].id))
  {
    var mine := Filter(bs, OfProduct(pid));
    var sel := NewestFirst(bs, pid);
    assert multiset(sel) == multiset(mine);
    if HasBatch(bs, pid) {
      var i :| 0 <= i < |bs| && bs[i].productId == pid;
      assert bs[i] in mine;
      assert bs[i] in multiset(sel);
    }
    if |sel| > 0 {
      NewestFirstHead(bs, pid);
    }
  }

  /** The head of the newest-first list is the table's row of that id, received no earlier than any batch of pid. */
  lemma NewestFirstHead(bs: seq<Batch>, pid: nat)
    requires SerialBatches(bs) && |NewestFirst(bs, pid)| > 0
    ensures var sel := NewestFirst(bs, pid);
      sel[0].id < |bs| && bs[sel[0].id] == sel[0] && Newest(bs, pid, sel[0].id)
  {
    var mine := Filter(bs, OfProduct(pid));
    var sel := NewestFirst(bs, pid);
    assert multiset(sel) == multiset(mine);
    assert sel[0] in multiset(mine);
    assert sel[0] in mine;
    var m :| 0 <= m < |bs| && bs[m] == sel[0];
    ReceivedLastIsTotalPreorder();
    SortSorted(mine, ReceivedLast);
    forall i | 0 <= i < |bs| && bs[i].productId == pid
      ensures bs[i].receivedAt <= sel[0].receivedAt
    {
      assert bs[i] in mine;
      assert bs[i] in multiset(sel);
      var j :| 0 <= j < |sel| && sel[j] == bs[i];
      if j > 0 {
        assert ReceivedLast(sel[0], sel[j]);
      }
    }
  }

  /** Restoring an item rewrites at most one row's remaining quantity. */
  lemma CreditNewestShape(bs: seq<Batch>, pid: nat, q: int)
    requires SerialBatches(bs)
    ensures SerialBatches(CreditNewest(bs, pid, q)) && SameProducts(bs, CreditNewest(bs, pid, q))
  {
    NewestFirstFacts(bs, pid);
  }

  /**
   * Restoring an item with a positive quantity to a product that has batches
   * adds the whole quantity to that product's newest batch and changes no other
   * row; the credit is not capped by what the batch received. Otherwise the
   * table is unchanged.
   */
  lemma CreditNewestSpec(bs: seq<Batch>, pid: nat, q: int)
    requires SerialBatches(bs)
    ensures q <= 0 || !HasBatch(bs, pid) ==> CreditNewest(bs, pid, q) == bs
    ensures q > 0 && HasBatch(bs, pid) ==>
      exists k: nat :: Newest(bs, pid, k) && CreditNewest(bs, pid, q) == bs[k := bs[k].(remaining := bs[k].remaining + q)]
  {
    if q > 0 && HasBatch(bs, pid) {
      CreditNewestCredits(bs, pid, q);
    } else {
      NewestFirstFacts(bs, pid);
    }
  }

  lemma CreditNewestCredits(bs: seq<Batch>, pid: nat, q: int)
    requires SerialBatches(bs) && q > 0 && HasBatch(bs, pid)
    ensures exists k: nat :: Newest(bs, pid, k) && CreditNewest(bs, pid, q) == bs[k := bs[k].(remaining := bs[k].remaining + q)]
  {
    NewestFirstFacts(bs, pid);
    CreditNewestUnfold(bs, pid, q);
    CreditHead(bs, pid, q, NewestFirst(bs, pid)[0].id, CreditNewest(bs, pid, q));
  }

  lemma CreditHead(bs: seq<Batch>, pid: nat, q: int, k: nat, after: seq<Batch>)
    requires Newest(bs, pid, k) && after == SetRemaining(bs, k, bs[k].remaining + q)
    ensures exists k: nat :: Newest(bs, pid, k) && after == bs[k := bs[k].(remaining := bs[k].remaining + q)]
  {
    SetRemainingAt(bs, k, bs[k].remaining + q);
  }

  lemma CreditNewestUnfold(bs: seq<Batch>, pid: nat, q: int)
    requires q > 0 && |NewestFirst(bs, pid)| > 0
    ensures CreditNewest(bs, pid, q)
         == SetRemaining(bs, NewestFirst(bs, pid)[0].id, NewestFirst(bs, pid)[0].remaining + q)
  {
  }

  lemma SetRemainingAt(bs: seq<Batch>, k: nat, v: int)
    requires k < |bs|
    ensures SetRemaining(bs, k, v) == bs[k := bs[k].(remaining := v)]
  {
  }

  lemma SameProductsHasBatch(a: seq<Batch>, b: seq<Batch>, pid: nat)
    requires SameProducts(a, b)
    ensures HasBatch(a, pid) == HasBatch(b, pid)
  {
    if HasBatch(a, pid) {
      var i :| 0 <= i < |a| && a[i].productId == pid;
      assert b[i].productId == pid;
    }
    if HasBatch(b, pid) {
      var i :| 0 <= i < |b| && b[i].productId == pid;
      assert a[i].productId == pid;
    }
  }

  lemma StockOfSetRemaining(bs: seq<Batch>, id: nat, v: int, pid: nat)
    requires id < |bs|
    ensures StockOf(SetRemaining(bs, id, v), pid)
         == StockOf(bs, pid) + (if bs[id].productId == pid then v - bs[id].remaining else 0)
  {
    SumByUpdate(bs, id, bs[id].(remaining := v), Contribution(pid));
  }

  /** Restoring q of pid raises pid's stock by q when pid has a batch, and no other product's stock. */
  lemma CreditNewestStock(bs: seq<Batch>, pid: nat, q: int, other: nat)
    requires SerialBatches(bs)
    ensures StockOf(CreditNewest(bs, pid, q), other)
         == StockOf(bs, other) + (if other == pid && q > 0 && HasBatch(bs, pid) then q else 0)
  {
    NewestFirstFacts(bs, pid);
    var sel := NewestFirst(bs, pid);
    if q > 0 && |sel| > 0 {
      CreditNewestUnfold(bs, pid, q);
      StockOfSetRemaining(bs, sel[0].id, sel[0].remaining + q, other);
    }
  }

  /** What restoring an item gives back to product pid. */
  function Credited(pid: nat): SaleItem -> int
  {
    (it: SaleItem) => if it.productId == pid && it.quantity > 0 then it.quantity else 0
  }

  lemma {:induction false} CreditAllShape(bs: seq<Batch>, items: seq<SaleItem>)
    requires SerialBatches(bs)
    ensures SerialBatches(CreditAll(bs, items)) && SameProducts(bs, CreditAll(bs, items))
    decreases |items|
  {
    if |items| > 0 {
      var n := |items| - 1;
      CreditAllShape(bs, items[..n]);
      CreditNewestShape(CreditAll(bs, items[..n]), items[n].productId, items[n].quantity);
    }
  }

  /**
   * Cancelling gives every product that has a batch back the sum of its items'
   * positive quantities; a product without batches gets nothing back.
   */
  lemma {:induction false} CreditAllStock(bs: seq<Batch>, items: seq<SaleItem>, pid: nat)
    requires SerialBatches(bs)
    ensures StockOf(CreditAll(bs, items), pid)
         == StockOf(bs, pid) + (if HasBatch(bs, pid) then SumBy(items, Credited(pid)) else 0)
    decreases |items|
  {
    if |items| > 0 {
      var n := |items| - 1;
      var last := items[n];
      var mid := CreditAll(bs, items[..n]);
      assert items == items[..n] + [last];
      SumByAppend(items[..n], last, Credited(pid));
      CreditAllStock(bs, items[..n], pid);
      CreditAllShape(bs, items[..n]);
      CreditNewestStock(mid, last.productId, last.quantity, pid);
      SameProductsHasBatch(bs, mid, pid);
      SameProductsHasBatch(bs, mid, last.productId);
    }
  }

  /** Restores one sale item: the inner `for (const batch of batches)` loop. */
  method RestoreItem(db: Store, item: SaleItem)
    requires db.Valid()
    modifies db`batches
    ensures db.Valid()
    ensures db.batches == CreditNewest(old(db.batches), item.productId, item.quantity)
  {
    ghost var orig := db.batches;
    var sel := NewestFirst(db.batches, item.productId);
    var remaining := item.quantity;
    var j := 0;
    while j < |sel|
      invariant 0 <= j <= |sel|
      invariant db.Valid()
      invariant j == 0 ==> remaining == item.quantity && db.batches == orig
      invariant j > 0 ==> remaining <= 0 && db.batches == CreditNewest(orig, item.productId, item.quantity)
      decreases |sel| - j
    {
      if remaining <= 0 {
        break;
      }
      var toAdd := Min(remaining, item.quantity);
      db.UpdateBatchRemaining(sel[j].id, sel[j].remaining + toAdd);
      remaining := remaining - toAdd;
      j := j + 1;
    }
  }

  /**
   * `cancelSale`: a sale already cancelled, or a cancel the user does not
   * confirm, changes nothing; otherwise every item is restored to its product's
   * newest batch and the sale is stamped cancelled. The 24-hour window is not
   * checked here.
   */
  method CancelSale(db: Store, saleId: nat, confirmed: bool, now: int)
    requires db.Valid() && saleId < |db.sales|
    modifies db
    ensures db.Valid()
    ensures db.products == old(db.products) && db.saleItems == old(db.saleItems) && db.history == old(db.history)
    ensures old(db.sales[saleId].cancelledAt.Some?) || !confirmed ==>
      db.batches == old(db.batches) && db.sales == old(db.sales)
    ensures old(db.sales[saleId].cancelledAt.None?) && confirmed ==>
      && db.batches == CreditAll(old(db.batches), ItemsOf(old(db.saleItems), saleId))
      && db.sales == old(db.sales)[saleId := old(db.sales[saleId]).(cancelledAt := Some(now))]
    ensures KeepsStamps(old(db.sales), db.sales)
  {
    if db.sales[saleId].cancelledAt.Some? {
      return;
    }
    if !confirmed {
      return;
    }
    var items := ItemsOf(db.saleItems, saleId);
    RestoreItems(db, items);
    StampKeepsStamps(db.sales, saleId, now);
    db.MarkCancelled(saleId, now);
  }

  /** The outer `for (const item of items)` loop. */
  method RestoreItems(db: Store, items: seq<SaleItem>)
    requires db.Valid()
    modifies db`batches
    ensures db.Valid()
    ensures db.batches == CreditAll(old(db.batches), items)
  {
    ghost var orig := db.batches;
    for i := 0 to |items|
      invariant db.Valid()
      invariant db.batches == CreditAll(orig, items[..i])
    {
      RestoreItem(db, items[i]);
      assert items[..i + 1][..i] == items[..i];
    }
    assert items[..|items|] == items;
  }

  /**
   * A sale of 3 drew the older of two batches (5 and 5 received) down to 2;
   * cancelling it leaves that batch at 2 and lifts the newer one to 8, above the
   * 5 it was received with.
   */
  lemma CancelCreditsAnotherBatch()
    ensures var bs := [Batch(0, 0, 5, 5, 10, 1), Batch(1, 0, 5, 5, 12, 2)];
      var sold := [Batch(0, 0, 5, 2, 10, 1), Batch(1, 0, 5, 5, 12, 2)];
      var back := CreditNewest(sold, 0, 3);
      && back[0].remaining == 2
      && back[1].remaining == 8 > back[1].quantity
  {
    var sold := [Batch(0, 0, 5, 2, 10, 1), Batch(1, 0, 5, 5, 12, 2)];
    assert sold[..1] == [sold[0]];
    assert Filter([sold[0]], OfProduct(0)) == [sold[0]];
    assert Filter(sold, OfProduct(0)) == sold;
    assert sold[1..] == [sold[1]];
    assert Sort(sold[1..], ReceivedLast) == [sold[1]];
    assert Insert(sold[0], [sold[1]], ReceivedLast) == [sold[1], sold[0]];
    assert NewestFirst(sold, 0)[0] == sold[1];
    assert CreditNewest(sold, 0, 3) == SetRemaining(sold, 1, 8);
  }

  /** `isWithin24Hours`: the hours elapsed, as a real quotient, are strictly below 24. */
  function IsWithin24Hours(createdAt: int, now: int): (r: bool)
    ensures r <==> now - createdAt < DayMs
  {
    ((now - createdAt) as real) / 3_600_000.0 < 24.0
  }

  /** The Cancel button: admins only, sales not yet cancelled, made within the last 24 hours. */
  function CanCancel(isAdmin: bool, sale: Sale, now: int): (r: bool)
    ensures r <==> isAdmin && sale.cancelledAt.None? && now - sale.createdAt < DayMs
  {
    isAdmin && sale.cancelledAt.None? && IsWithin24Hours(sale.createdAt, now)
  }

  /** Every write in the history keeps the stamps of the state before it. */
  ghost predicate StampKeepingHistory(history: seq<seq<Sale>>)
  {
    forall n :: 0 <= n < |history| - 1 ==> KeepsStamps(history[n], history[n + 1])
  }

  /**
   * Once cancelled, a sale is never offered for cancelling again, at any time, to
   * anyone: along any history of writes that each keep stamps (confirmed sales,
   * cancels), the sale stays in the table with the same stamp.
   */
  lemma CancelledStaysUncancellable(history: seq<seq<Sale>>, saleId: nat, isAdmin: bool, later: int)
    requires |history| > 0 && StampKeepingHistory(history)
    requires saleId < |history[0]| && history[0][saleId].cancelledAt.Some?
    ensures var last := history[|history| - 1];
      && saleId < |last| && last[saleId].cancelledAt == history[0][saleId].cancelledAt
      && !CanCancel(isAdmin, last[saleId], later)
  {
    StampsKeptAlong(history);
  }

  /** Stamps kept by each write are kept from the first state to the last. */
  lemma {:induction false} StampsKeptAlong(history: seq<seq<Sale>>)
    requires |history| > 0 && StampKeepingHistory(history)
    ensures KeepsStamps(history[0], history[|history| - 1])
    decreases |history|
  {
    if |history| > 1 {
      var front := history[..|history| - 1];
      assert StampKeepingHistory(front) by {
        forall n | 0 <= n < |front| - 1 ensures KeepsStamps(front[n], front[n + 1]) {
          assert front[n] == history[n] && front[n + 1] == history[n + 1];
        }
      }
      StampsKeptAlong(front);
      KeepsStampsTransitive(history[0], history[|history| - 2], history[|history| - 1]);
    }
  }

  /** `paginatedSales`: the filtered sales shown on page `page`, `PageSize` to a page. */
  function PaginatedSales(sales: seq<Sale>, idFilter: string, page: int): (r: seq<Sale>)
    ensures |r| <= PageSize
    ensures forall s :: s in r ==> s in sales && (idFilter == "" || Contains(s.displayId, idFilter))
  {
    var shown := FilteredSales(sales, idFilter);
    PageWithin(shown, page, PageSize);
    PageOf(shown, page, PageSize)
  }

  /**
   * No filtered sale is out of reach: the one at index i is entry i % 10 of page
   * i / 10 + 1, and the pager counts that page.
   */
  lemma EverySaleOnItsPage(sales: seq<Sale>, idFilter: string, i: nat)
    requires i < |FilteredSales(sales, idFilter)|
    ensures var shown := FilteredSales(sales, idFilter);
      var p := PaginatedSales(sales, idFilter, i / PageSize + 1);
      && i / PageSize + 1 <= TotalPages(|shown|, PageSize)
      && i % PageSize < |p| && p[i % PageSize] == shown[i]
  {
    EveryItemOnItsPage(FilteredSales(sales, idFilter), PageSize, i / PageSize, i % PageSize);
  }

  function MatchesId(idFilter: string): Sale -> bool
  {
    (s: Sale) => idFilter == "" || Includes(s.displayId, idFilter)
  }

  /** The sale-number filter: an empty filter keeps every sale, otherwise the display id must contain it. */
  function FilteredSales(sales: seq<Sale>, idFilter: string): (r: seq<Sale>)
    ensures forall s :: s in r <==> s in sales && (idFilter == "" || Contains(s.displayId, idFilter))
    ensures |r| <= |sales|
  {
    Filter(sales, MatchesId(idFilter))
  }
}
