/**
 * The sale form: the product picker's stock snapshot, the cart (add, merge,
 * reject over stock, cancel a line), the cart total, and confirmSale, which
 * re-checks stock, records the sale and costs every line by FIFO.
 */
module SaleForm {
  import opened Wrappers
  import opened Inventory
  import opened Seqs
  import opened Sorting
  import opened Stock
  import opened Fifo
  import opened Db

  // ---------------------------------------------------------------------------
  // The product picker (fetchProducts)

  datatype PickerProduct = PickerProduct(id: nat, name: string, sellingPrice: int, sku: string, stock: int)

  function Offer(s: Stocked): PickerProduct
  {
    PickerProduct(s.product.id, s.product.name, s.product.sellingPrice, s.product.sku, s.stock)
  }

  function Offers(merged: seq<Stocked>): seq<PickerProduct>
  {
    seq(|merged|, i requires 0 <= i < |merged| => Offer(merged[i]))
  }

  function HasStock(p: PickerProduct): bool { p.stock > 0 }

  /**
   * The picker offers exactly the active products whose summed remaining
   * quantity is positive, each with that sum as its stock.
   */
  method FetchProducts(products: seq<Product>, stockRows: seq<Batch>) returns (picker: seq<PickerProduct>)
    ensures forall k :: 0 <= k < |picker| ==>
      (picker[k].stock > 0 &&
       exists i :: 0 <= i < |products| && IsActive(products[i]) &&
         picker[k] == Offer(Stocked(products[i], StockOf(stockRows, products[i].id))))
    ensures forall i :: 0 <= i < |products| && IsActive(products[i]) && StockOf(stockRows, products[i].id) > 0 ==>
      Offer(Stocked(products[i], StockOf(stockRows, products[i].id))) in picker
  {
    var active := Filter(products, IsActive);
    var stockMap := BuildStockMap(stockRows);
    var offers := Offers(Merge(active, stockMap));
    picker := Filter(offers, HasStock);
    OffersComplete(products, stockRows, active, stockMap, picker);
    OffersSound(products, stockRows, active, stockMap, picker);
  }

  lemma OffersComplete(products: seq<Product>, stockRows: seq<Batch>, active: seq<Product>,
                       stockMap: map<nat, int>, picker: seq<PickerProduct>)
    requires active == Filter(products, IsActive)
    requires forall pid :: TotalStock(stockMap, pid) == StockOf(stockRows, pid)
    requires picker == Filter(Offers(Merge(active, stockMap)), HasStock)
    ensures forall i :: 0 <= i < |products| && IsActive(products[i]) && StockOf(stockRows, products[i].id) > 0 ==>
      Offer(Stocked(products[i], StockOf(stockRows, products[i].id))) in picker
  {
    var offers := Offers(Merge(active, stockMap));
    forall i | 0 <= i < |products| && IsActive(products[i]) && StockOf(stockRows, products[i].id) > 0
      ensures Offer(Stocked(products[i], StockOf(stockRows, products[i].id))) in picker
    {
      assert products[i] in active;
      OfferOfActive(active, stockMap, products[i], StockOf(stockRows, products[i].id));
    }
  }

  /** An active product with positive stock is offered with that stock. */
  lemma OfferOfActive(active: seq<Product>, stockMap: map<nat, int>, p: Product, stock: int)
    requires p in active && TotalStock(stockMap, p.id) == stock && stock > 0
    ensures Offer(Stocked(p, stock)) in Filter(Offers(Merge(active, stockMap)), HasStock)
  {
    var offers := Offers(Merge(active, stockMap));
    var j :| 0 <= j < |active| && active[j] == p;
    assert offers[j] == Offer(Stocked(p, stock));
    assert HasStock(offers[j]);
  }

  lemma OffersSound(products: seq<Product>, stockRows: seq<Batch>, active: seq<Product>,
                    stockMap: map<nat, int>, picker: seq<PickerProduct>)
    requires active == Filter(products, IsActive)
    requires forall pid :: TotalStock(stockMap, pid) == StockOf(stockRows, pid)
    requires picker == Filter(Offers(Merge(active, stockMap)), HasStock)
    ensures forall k :: 0 <= k < |picker| ==>
      (picker[k].stock > 0 &&
       exists i :: 0 <= i < |products| && IsActive(products[i]) &&
         picker[k] == Offer(Stocked(products[i], StockOf(stockRows, products[i].id))))
  {
    var offers := Offers(Merge(active, stockMap));
    forall k | 0 <= k < |picker|
      ensures picker[k].stock > 0
      ensures exists i :: (0 <= i < |products| && IsActive(products[i]) &&
        picker[k] == Offer(Stocked(products[i], StockOf(stockRows, products[i].id))))
    {
      assert picker[k] in offers && HasStock(picker[k]);
      var j :| 0 <= j < |offers| && offers[j] == picker[k];
      assert active[j] in products && IsActive(active[j]);
      var i :| 0 <= i < |products| && products[i] == active[j];
      assert TotalStock(stockMap, active[j].id) == StockOf(stockRows, active[j].id);
    }
  }

  // ---------------------------------------------------------------------------
  // The cart

  datatype CartLine = CartLine(id: nat, name: string, price: int, quantity: int, sku: string, cancelled: bool)

  function IsActiveLine(l: CartLine): bool { !l.cancelled }

  function LineAmount(l: CartLine): int { l.quantity * l.price }

  ghost predicate UniqueIds(cart: seq<CartLine>)
  {
    forall i, j :: 0 <= i < j < |cart| ==> cart[i].id != cart[j].id
  }

  /** What the cart's operations keep true: one line per product, every quantity positive. */
  ghost predicate CartValid(cart: seq<CartLine>)
  {
    UniqueIds(cart) && forall i :: 0 <= i < |cart| ==> cart[i].quantity > 0
  }

  /** `products.find(p => p.id === productId)` */
  function FindProduct(ps: seq<PickerProduct>, id: nat): (r: Option<PickerProduct>)
    ensures r.Some? ==> r.value in ps && r.value.id == id
    ensures r.None? ==> forall k :: 0 <= k < |ps| ==> ps[k].id != id
  {
    if |ps| == 0 then None
    else if ps[0].id == id then Some(ps[0])
    else FindProduct(ps[1..], id)
  }

  /** The position of `cart.find(i => i.id === id)`. */
  function FindLine(cart: seq<CartLine>, id: nat): (r: Option<nat>)
    ensures r.Some? ==> r.value < |cart| && cart[r.value].id == id
    ensures r.Some? ==> forall k :: 0 <= k < r.value ==> cart[k].id != id
    ensures r.None? ==> forall k :: 0 <= k < |cart| ==> cart[k].id != id
  {
    if |cart| == 0 then None
    else if cart[0].id == id then Some(0)
    else match FindLine(cart[1..], id)
      case None => None
      case Some(k) => Some(k + 1)
  }

  /** `prev.map(i => i.id === id ? { ...i, quantity: i.quantity + qty } : i)` */
  function IncrementLine(cart: seq<CartLine>, id: nat, qty: int): seq<CartLine>
  {
    seq(|cart|, i requires 0 <= i < |cart| =>
      if cart[i].id == id then cart[i].(quantity := cart[i].quantity + qty) else cart[i])
  }

  /** The Cancel button: `prev.map(i => i.id === id ? { ...i, cancelled: true } : i)` */
  function CancelLine(cart: seq<CartLine>, id: nat): seq<CartLine>
  {
    seq(|cart|, i requires 0 <= i < |cart| =>
      if cart[i].id == id then cart[i].(cancelled := true) else cart[i])
  }

  datatype CartError = InvalidQuantity | NoProductSelected | LineCancelled | OverStock(available: int)

  /**
   * addToCart. `qty` is `Number(quantity)`, None when that is NaN; `selected` is the
   * chosen product id, None while nothing is chosen.
   */
  function AddToCart(cart: seq<CartLine>, picker: seq<PickerProduct>, selected: Option<nat>, qty: Option<int>)
    : Result<seq<CartLine>, CartError>
  {
    if qty.None? || qty.value <= 0 then Failure(InvalidQuantity)
    else if selected.None? then Failure(NoProductSelected)
    else match FindProduct(picker, selected.value)
      case None => Failure(NoProductSelected)
      case Some(product) =>
        var existing := FindLine(cart, product.id);
        if existing.Some? && cart[existing.value].cancelled then Failure(LineCancelled)
        else
          var alreadyInCart := if existing.Some? then cart[existing.value].quantity else 0;
          if alreadyInCart + qty.value > product.stock then Failure(OverStock(product.stock))
          else if existing.Some? then Success(IncrementLine(cart, product.id, qty.value))
          else Success(cart + [CartLine(product.id, product.name, product.sellingPrice, qty.value, product.sku, false)])
  }

  /** `cart.filter(i => !i.cancelled).reduce((sum, i) => sum + i.quantity * i.price, 0)` */
  function Total(cart: seq<CartLine>): int
  {
    SumBy(Filter(cart, IsActiveLine), LineAmount)
  }

  function ActiveAmount(l: CartLine): int { if l.cancelled then 0 else LineAmount(l) }

  // ---------------------------------------------------------------------------
  // Properties of the cart

  /** The total is the sum over all lines with cancelled lines counting zero. */
  lemma TotalCountsActiveLines(cart: seq<CartLine>)
    ensures Total(cart) == SumBy(cart, ActiveAmount)
  {
    SumByFilter(cart, IsActiveLine, LineAmount, ActiveAmount);
  }

  lemma IncrementIsUpdate(cart: seq<CartLine>, k: nat, qty: int)
    requires UniqueIds(cart) && k < |cart|
    ensures IncrementLine(cart, cart[k].id, qty) == cart[k := cart[k].(quantity := cart[k].quantity + qty)]
  {
  }

  lemma CancelIsUpdate(cart: seq<CartLine>, k: nat)
    requires UniqueIds(cart) && k < |cart|
    ensures CancelLine(cart, cart[k].id) == cart[k := cart[k].(cancelled := true)]
  {
  }

  /** A quantity that is not a positive number is rejected and the cart stays as it was. */
  lemma AddToCartRejectsBadQuantity(cart: seq<CartLine>, picker: seq<PickerProduct>, selected: Option<nat>, qty: Option<int>)
    requires qty.None? || qty.value <= 0
    ensures AddToCart(cart, picker, selected, qty) == Failure(InvalidQuantity)
  {
  }

  /** A product whose line was cancelled can never be added again. */
  lemma AddToCartRejectsCancelled(cart: seq<CartLine>, picker: seq<PickerProduct>, id: nat, qty: Option<int>)
    requires exists k :: 0 <= k < |cart| && cart[k].id == id && cart[k].cancelled
    requires UniqueIds(cart)
    ensures AddToCart(cart, picker, Some(id), qty).Failure?
  {
  }

  /**
   * addToCart succeeds exactly when the quantity is positive, the product is on offer,
   * its line is not cancelled and the cart would not exceed the product's stock.
   */
  lemma AddToCartSucceedsIff(cart: seq<CartLine>, picker: seq<PickerProduct>, id: nat, q: int)
    ensures var found := FindProduct(picker, id);
      var k := FindLine(cart, id);
      var already := if k.Some? then cart[k.value].quantity else 0;
      AddToCart(cart, picker, Some(id), Some(q)).Success? <==>
        q > 0 && found.Some? && (k.None? || !cart[k.value].cancelled) && already + q <= found.value.stock
  {
  }

  /**
   * Adding more of a product already in the cart raises that line's quantity by q, within
   * the product's stock, leaves every other line as it was and adds q at the line's price
   * to the total.
   */
  lemma AddToCartMerges(cart: seq<CartLine>, picker: seq<PickerProduct>, k: nat, q: int)
    requires CartValid(cart) && k < |cart|
    requires AddToCart(cart, picker, Some(cart[k].id), Some(q)).Success?
    ensures var r := AddToCart(cart, picker, Some(cart[k].id), Some(q)).value;
      && CartValid(r)
      && r == cart[k := cart[k].(quantity := cart[k].quantity + q)]
      && r[k].quantity <= FindProduct(picker, cart[k].id).value.stock
      && Total(r) == Total(cart) + q * cart[k].price
  {
    var id := cart[k].id;
    var found := FindLine(cart, id);
    assert found == Some(k) by {
      if found.None? || found.value != k { assert false; }
    }
    assert q > 0;
    IncrementIsUpdate(cart, k, q);
    var r := cart[k := cart[k].(quantity := cart[k].quantity + q)];
    assert AddToCart(cart, picker, Some(id), Some(q)) == Success(r);
    assert CartValid(r) by {
      forall i, j | 0 <= i < j < |r| ensures r[i].id != r[j].id {
        assert r[i].id == cart[i].id && r[j].id == cart[j].id;
      }
    }
    TotalAfterIncrement(cart, k, q);
  }

  lemma LineAmountGrows(l: CartLine, q: int)
    ensures LineAmount(l.(quantity := l.quantity + q)) == LineAmount(l) + q * l.price
  {
    calc {
      LineAmount(l.(quantity := l.quantity + q));
      (l.quantity + q) * l.price;
      l.quantity * l.price + q * l.price;
    }
  }

  /** Raising an active line's quantity by q adds q at its price to the total. */
  lemma TotalAfterIncrement(cart: seq<CartLine>, k: nat, q: int)
    requires k < |cart| && !cart[k].cancelled
    ensures Total(cart[k := cart[k].(quantity := cart[k].quantity + q)]) == Total(cart) + q * cart[k].price
  {
    var line := cart[k].(quantity := cart[k].quantity + q);
    var extra := q * cart[k].price;
    assert ActiveAmount(line) == ActiveAmount(cart[k]) + extra by {
      LineAmountGrows(cart[k], q);
    }
    SumByUpdate(cart, k, line, ActiveAmount);
    TotalCountsActiveLines(cart);
    TotalCountsActiveLines(cart[k := line]);
  }

  /**
   * Adding a product not yet in the cart appends one active line holding the product's
   * name, price and sku with quantity q (within its stock); the total grows by q at that price.
   */
  lemma AddToCartAppends(cart: seq<CartLine>, picker: seq<PickerProduct>, id: nat, q: int)
    requires CartValid(cart)
    requires forall k :: 0 <= k < |cart| ==> cart[k].id != id
    requires AddToCart(cart, picker, Some(id), Some(q)).Success?
    ensures var p := FindProduct(picker, id).value;
      var r := AddToCart(cart, picker, Some(id), Some(q)).value;
      && CartValid(r)
      && r == cart + [CartLine(id, p.name, p.sellingPrice, q, p.sku, false)]
      && q <= p.stock
      && Total(r) == Total(cart) + q * p.sellingPrice
  {
    var p := FindProduct(picker, id).value;
    var line := CartLine(id, p.name, p.sellingPrice, q, p.sku, false);
    assert FindLine(cart, id).None?;
    assert AddToCart(cart, picker, Some(id), Some(q)) == Success(cart + [line]);
    assert CartValid(cart + [line]) by {
      var r := cart + [line];
      forall i, j | 0 <= i < j < |r| ensures r[i].id != r[j].id {
        if j < |cart| { assert r[i] == cart[i] && r[j] == cart[j]; } else { assert r[i] == cart[i]; }
      }
    }
    TotalCountsActiveLines(cart);
    TotalCountsActiveLines(cart + [line]);
    SumByAppend(cart, line, ActiveAmount);
  }

  /** Cancelling a line marks that product's line cancelled, keeps everything else and is one-way. */
  lemma CancelLineSpec(cart: seq<CartLine>, k: nat)
    requires CartValid(cart) && k < |cart|
    ensures var r := CancelLine(cart, cart[k].id);
      && CartValid(r)
      && r == cart[k := cart[k].(cancelled := true)]
      && Total(r) == Total(cart) - ActiveAmount(cart[k])
      && CancelLine(r, cart[k].id) == r
  {
    CancelIsUpdate(cart, k);
    var r := cart[k := cart[k].(cancelled := true)];
    CancelKeepsValid(cart, k);
    CancelLowersTotal(cart, k);
    CancelIsUpdate(r, k);
  }

  lemma CancelKeepsValid(cart: seq<CartLine>, k: nat)
    requires CartValid(cart) && k < |cart|
    ensures CartValid(cart[k := cart[k].(cancelled := true)])
  {
  }

  lemma CancelLowersTotal(cart: seq<CartLine>, k: nat)
    requires k < |cart|
    ensures Total(cart[k := cart[k].(cancelled := true)]) == Total(cart) - ActiveAmount(cart[k])
  {
    var r := cart[k := cart[k].(cancelled := true)];
    TotalCountsActiveLines(cart);
    TotalCountsActiveLines(r);
    SumByUpdate(cart, k, r[k], ActiveAmount);
  }

  // ---------------------------------------------------------------------------
  // The batches one cart line draws on, and writing the allocation back

  function Sellable(pid: nat): Batch -> bool
  {
    (b: Batch) => b.productId == pid && b.remaining > 0
  }

  /** `order('received_at', { ascending: true })` */
  function ReceivedFirst(a: Batch, b: Batch): bool { a.receivedAt <= b.receivedAt }

  /**
   * `select * from stock_batches where product_id = pid and remaining_quantity > 0
   * order by received_at asc`, ties kept in table order.
   */
  function SaleBatches(bs: seq<Batch>, pid: nat): seq<Batch>
  {
    Sort(Filter(bs, Sellable(pid)), ReceivedFirst)
  }

  /** Every selected batch is the table's row under its id, of product pid. */
  ghost predicate RowsOf(sel: seq<Batch>, bs: seq<Batch>, pid: nat)
  {
    forall k :: 0 <= k < |sel| ==> sel[k].id < |bs| && bs[sel[k].id] == sel[k] && sel[k].productId == pid
  }

  ghost predicate DistinctIds(sel: seq<Batch>)
  {
    forall i, j :: 0 <= i < j < |sel| ==> sel[i].id != sel[j].id
  }

  lemma ReceivedFirstIsTotalPreorder()
    ensures TotalPreorder(ReceivedFirst)
  {
  }

  /**
   * The batches a line draws on are distinct rows of that product, each with something
   * left, oldest first, and together they hold at least the product's stock.
   */
  lemma SaleBatchesFacts(bs: seq<Batch>, pid: nat)
    requires SerialBatches(bs)
    ensures var sel := SaleBatches(bs, pid);
      && RowsOf(sel, bs, pid) && DistinctIds(sel) && NonNegative(sel)
      && Sorted(sel, ReceivedFirst)
      && SumRemaining(sel) >= StockOf(bs, pid)
  {
    SaleBatchesRows(bs, pid);
    SaleBatchesDistinct(bs, pid);
    ReceivedFirstIsTotalPreorder();
    SortSorted(Filter(bs, Sellable(pid)), ReceivedFirst);
    SaleBatchesHoldStock(bs, pid);
  }

  lemma SaleBatchesRows(bs: seq<Batch>, pid: nat)
    requires SerialBatches(bs)
    ensures var sel := SaleBatches(bs, pid);
      RowsOf(sel, bs, pid) && forall k :: 0 <= k < |sel| ==> sel[k].remaining > 0
  {
    var filtered := Filter(bs, Sellable(pid));
    var sel := SaleBatches(bs, pid);
    forall k | 0 <= k < |sel|
      ensures sel[k].id < |bs| && bs[sel[k].id] == sel[k] && sel[k].productId == pid && sel[k].remaining > 0
    {
      assert sel[k] in multiset(sel);
      assert sel[k] in filtered;
      var j :| 0 <= j < |filtered| && filtered[j] == sel[k];
      assert Sellable(pid)(filtered[j]);
      var m :| 0 <= m < |bs| && bs[m] == filtered[j];
    }
  }

  lemma SaleBatchesDistinct(bs: seq<Batch>, pid: nat)
    requires SerialBatches(bs)
    ensures DistinctIds(SaleBatches(bs, pid))
  {
    var filtered := Filter(bs, Sellable(pid));
    var sel := SaleBatches(bs, pid);
    assert NoDup(bs) by {
      forall i, j | 0 <= i < j < |bs| ensures bs[i] != bs[j] {
        assert bs[i].id == i && bs[j].id == j;
      }
    }
    FilterNoDup(bs, Sellable(pid));
    NoDupPermutation(filtered, sel);
    SaleBatchesRows(bs, pid);
    forall i, j | 0 <= i < j < |sel| ensures sel[i].id != sel[j].id {
      assert sel[i] != sel[j];
      assert bs[sel[i].id] == sel[i] && bs[sel[j].id] == sel[j];
    }
  }

  lemma SaleBatchesHoldStock(bs: seq<Batch>, pid: nat)
    ensures SumRemaining(SaleBatches(bs, pid)) >= StockOf(bs, pid)
  {
    var filtered := Filter(bs, Sellable(pid));
    SumByFilterNonPositiveDropped(bs, Sellable(pid), Contribution(pid));
    SumByAgree(filtered, Contribution(pid), Remaining);
    SumByPermutation(filtered, SaleBatches(bs, pid), Remaining);
  }

  /** `for (const batch of updatedBatches) update stock_batches set remaining_quantity ... where id = batch.id` */
  function WriteBack(bs: seq<Batch>, upd: seq<Batch>): (r: seq<Batch>)
    ensures |r| == |bs|
    decreases |upd|
  {
    if |upd| == 0 then bs
    else
      var last := upd[|upd| - 1];
      SetRemaining(WriteBack(bs, upd[..|upd| - 1]), last.id, last.remaining)
  }

  /** A row no update names keeps its value. */
  lemma {:induction false} WriteBackUntouched(bs: seq<Batch>, upd: seq<Batch>, i: nat)
    requires i < |bs|
    requires forall k :: 0 <= k < |upd| ==> upd[k].id != i
    ensures WriteBack(bs, upd)[i] == bs[i]
    decreases |upd|
  {
    if |upd| > 0 {
      WriteBackUntouched(bs, upd[..|upd| - 1], i);
    }
  }

  /** w is bs with some remaining quantities of product pid's rows changed, and nothing else. */
  ghost predicate Rewritten(bs: seq<Batch>, w: seq<Batch>, pid: nat)
  {
    && |w| == |bs| && SerialBatches(w)
    && (forall i :: 0 <= i < |bs| ==> w[i] == bs[i].(remaining := w[i].remaining))
    && (forall i :: 0 <= i < |bs| && bs[i].productId != pid ==> w[i] == bs[i])
  }

  /** Writing one reduced copy of a row of product pid back over that row. */
  lemma WriteOneEffect(w': seq<Batch>, bs: seq<Batch>, b: Batch, pid: nat)
    requires Rewritten(bs, w', pid)
    requires b.id < |w'| && w'[b.id].productId == pid && b == w'[b.id].(remaining := b.remaining)
    ensures var w := SetRemaining(w', b.id, b.remaining);
      && Rewritten(bs, w, pid)
      && StockOf(w, pid) == StockOf(w', pid) - (w'[b.id].remaining - b.remaining)
      && (NonNegative(w') && b.remaining >= 0 ==> NonNegative(w))
  {
    assert SetRemaining(w', b.id, b.remaining) == w'[b.id := b];
    SumByUpdate(w', b.id, b, Contribution(pid));
  }

  /** The prefixes without the last update meet the same requirements, and no earlier update names the last one's row. */
  lemma WriteBackPrefix(bs: seq<Batch>, sel: seq<Batch>, upd: seq<Batch>, pid: nat)
    requires RowsOf(sel, bs, pid) && DistinctIds(sel)
    requires 0 < |upd| == |sel|
    requires forall k :: 0 <= k < |sel| ==> upd[k] == sel[k].(remaining := upd[k].remaining)
    ensures var n := |upd| - 1;
      && RowsOf(sel[..n], bs, pid) && DistinctIds(sel[..n])
      && (forall k :: 0 <= k < n ==> upd[..n][k] == sel[..n][k].(remaining := upd[..n][k].remaining))
      && (forall k :: 0 <= k < n ==> upd[..n][k].id != upd[n].id)
      && (NonNegative(upd) ==> NonNegative(upd[..n]) && upd[n].remaining >= 0)
  {
  }

  /**
   * Writing back the reduced copies of distinct rows of product pid changes only
   * remaining quantities, only of pid's rows, and lowers pid's stock by what the
   * copies lost.
   */
  lemma {:induction false} WriteBackEffect(bs: seq<Batch>, sel: seq<Batch>, upd: seq<Batch>, pid: nat)
    requires SerialBatches(bs) && RowsOf(sel, bs, pid) && DistinctIds(sel)
    requires |upd| == |sel|
    requires forall k :: 0 <= k < |sel| ==> upd[k] == sel[k].(remaining := upd[k].remaining)
    ensures var w := WriteBack(bs, upd);
      && Rewritten(bs, w, pid)
      && StockOf(w, pid) == StockOf(bs, pid) - (SumRemaining(sel) - SumRemaining(upd))
      && (NonNegative(bs) && NonNegative(upd) ==> NonNegative(w))
    decreases |upd|
  {
    if |upd| > 0 {
      var n := |upd| - 1;
      var sel', upd' := sel[..n], upd[..n];
      WriteBackPrefix(bs, sel, upd, pid);
      WriteBackEffect(bs, sel', upd', pid);
      var w' := WriteBack(bs, upd');
      WriteBackUntouched(bs, upd', upd[n].id);
      WriteOneEffect(w', bs, upd[n], pid);
    }
  }

  /** The table after one cart line of q units of product pid is sold. */
  function SellLine(bs: seq<Batch>, pid: nat, q: int): seq<Batch>
  {
    match Allocate(SaleBatches(bs, pid), q)
    case Success(a) => WriteBack(bs, a.updatedBatches)
    case Failure(_) => bs
  }

  /** The cost_price recorded for that line: the FIFO cost of goods sold. */
  function LineCost(bs: seq<Batch>, pid: nat, q: int): int
  {
    match Allocate(SaleBatches(bs, pid), q)
    case Success(a) => a.costOfGoodsSold
    case Failure(_) => 0
  }

  /** Selling q units of a product with at least q in stock never fails FIFO. */
  lemma SellLineSucceeds(bs: seq<Batch>, pid: nat, q: int)
    requires SerialBatches(bs)
    requires 0 <= q <= StockOf(bs, pid)
    ensures Allocate(SaleBatches(bs, pid), q).Success?
    ensures var a := Allocate(SaleBatches(bs, pid), q).value;
      LineCost(bs, pid, q) == a.costOfGoodsSold && SellLine(bs, pid, q) == WriteBack(bs, a.updatedBatches)
  {
    SaleBatchesFacts(bs, pid);
    FifoSuccess(SaleBatches(bs, pid), q);
  }

  /**
   * Selling a line changes only remaining quantities, only of that product's batches, and
   * leaves no batch negative that was not negative before (a failed allocation changes nothing).
   */
  lemma SellLineShape(bs: seq<Batch>, pid: nat, q: int)
    requires SerialBatches(bs)
    ensures var w := SellLine(bs, pid, q);
      && |w| == |bs| && SerialBatches(w)
      && (forall i :: 0 <= i < |bs| ==> w[i] == bs[i].(remaining := w[i].remaining))
      && (forall i :: 0 <= i < |bs| && bs[i].productId != pid ==> w[i] == bs[i])
      && (NonNegative(bs) ==> NonNegative(w))
  {
    var sel := SaleBatches(bs, pid);
    if Allocate(sel, q).Success? {
      SaleBatchesFacts(bs, pid);
      FifoShape(sel, q);
      FifoBounds(sel, q);
      WriteBackEffect(bs, sel, Allocate(sel, q).value.updatedBatches, pid);
    }
  }

  /** Selling a line of one product keeps every other product's stock. */
  lemma SellLineKeepsOtherStock(bs: seq<Batch>, pid: nat, q: int, other: nat)
    requires SerialBatches(bs) && other != pid
    ensures StockOf(SellLine(bs, pid, q), other) == StockOf(bs, other)
  {
    SellLineShape(bs, pid, q);
    StockOfAgree(SellLine(bs, pid, q), bs, other);
  }

  /** Selling q units of a product with at least q in stock lowers its stock by exactly q. */
  lemma SellLineStock(bs: seq<Batch>, pid: nat, q: int)
    requires SerialBatches(bs)
    requires 0 <= q <= StockOf(bs, pid)
    ensures StockOf(SellLine(bs, pid, q), pid) == StockOf(bs, pid) - q
  {
    var sel := SaleBatches(bs, pid);
    SaleBatchesFacts(bs, pid);
    FifoSuccess(sel, q);
    FifoShape(sel, q);
    WriteBackEffect(bs, sel, Allocate(sel, q).value.updatedBatches, pid);
  }

  /** Two tables that agree on product pid's rows offer that product the same batches. */
  lemma {:induction false} SaleBatchesAgree(a: seq<Batch>, b: seq<Batch>, pid: nat)
    requires |a| == |b|
    requires forall i :: 0 <= i < |a| && a[i].productId == pid ==> a[i] == b[i]
    requires forall i :: 0 <= i < |a| ==> a[i].productId == b[i].productId
    ensures SaleBatches(a, pid) == SaleBatches(b, pid)
  {
    FilterSellableAgree(a, b, pid);
  }

  lemma {:induction false} FilterSellableAgree(a: seq<Batch>, b: seq<Batch>, pid: nat)
    requires |a| == |b|
    requires forall i :: 0 <= i < |a| && a[i].productId == pid ==> a[i] == b[i]
    requires forall i :: 0 <= i < |a| ==> a[i].productId == b[i].productId
    ensures Filter(a, Sellable(pid)) == Filter(b, Sellable(pid))
    decreases |a|
  {
    if |a| > 0 {
      FilterSellableAgree(a[..|a| - 1], b[..|b| - 1], pid);
    }
  }

  // ---------------------------------------------------------------------------
  // confirmSale

  /** Why `confirmSale` stopped: an empty cart, a line beyond stock, or the sale insert's error. */
  datatype SaleError = EmptyCart | NotEnoughStockFor(name: string) | SaleInsertFailed

  /** `cart.filter(i => !i.cancelled)` */
  function ActiveLines(cart: seq<CartLine>): seq<CartLine>
  {
    Filter(cart, IsActiveLine)
  }

  /** No line of `lines` is for product pid. */
  ghost predicate Untouched(lines: seq<CartLine>, pid: nat)
  {
    forall k :: 0 <= k < |lines| ==> lines[k].id != pid
  }

  /** The batch table after every line of `lines` is sold in order. */
  function SellLines(bs: seq<Batch>, lines: seq<CartLine>): seq<Batch>
    decreases |lines|
  {
    if |lines| == 0 then bs
    else
      var n := |lines| - 1;
      SellLine(SellLines(bs, lines[..n]), lines[n].id, lines[n].quantity)
  }

  /** The sale_items rows of a sale, each costed by FIFO against the table before the sale. */
  function SaleItemsFor(saleId: nat, lines: seq<CartLine>, bs: seq<Batch>): seq<SaleItem>
  {
    seq(|lines|, k requires 0 <= k < |lines| =>
      SaleItem(saleId, lines[k].id, lines[k].quantity, lines[k].price, LineCost(bs, lines[k].id, lines[k].quantity)))
  }

  ghost predicate WithinStock(lines: seq<CartLine>, bs: seq<Batch>)
  {
    forall k :: 0 <= k < |lines| ==> 0 <= lines[k].quantity <= StockOf(bs, lines[k].id)
  }

  /** Dropping cancelled lines keeps the cart valid. */
  lemma {:induction false} ActiveLinesValid(cart: seq<CartLine>)
    requires CartValid(cart)
    ensures CartValid(ActiveLines(cart))
    decreases |cart|
  {
    if |cart| > 0 {
      var n := |cart| - 1;
      var c', x := cart[..n], cart[n];
      assert forall k :: 0 <= k < n ==> c'[k] == cart[k];
      ActiveLinesValid(c');
      var r := ActiveLines(c');
      if !x.cancelled {
        forall k | 0 <= k < |r| ensures r[k].id != x.id {
          var m :| 0 <= m < n && c'[m] == r[k];
        }
        CartValidAppend(r, x);
      }
    }
  }

  /** A valid cart stays valid with one more line of a new product and positive quantity. */
  lemma CartValidAppend(cart: seq<CartLine>, x: CartLine)
    requires CartValid(cart) && x.quantity > 0
    requires forall k :: 0 <= k < |cart| ==> cart[k].id != x.id
    ensures CartValid(cart + [x])
  {
  }

  /**
   * Selling the lines of a cart changes only remaining quantities and leaves no batch
   * negative that was not negative before.
   */
  lemma {:induction false} SellLinesShape(bs: seq<Batch>, lines: seq<CartLine>)
    requires SerialBatches(bs)
    ensures var w := SellLines(bs, lines);
      && |w| == |bs| && SerialBatches(w)
      && (forall x :: 0 <= x < |bs| ==> w[x] == bs[x].(remaining := w[x].remaining))
      && (NonNegative(bs) ==> NonNegative(w))
    decreases |lines|
  {
    if |lines| > 0 {
      var n := |lines| - 1;
      SellLinesShape(bs, lines[..n]);
      SellLineShape(SellLines(bs, lines[..n]), lines[n].id, lines[n].quantity);
    }
  }

  /** Selling the lines of a cart leaves the batches of every product not in it as they were. */
  lemma {:induction false} SellLinesKeepOthers(bs: seq<Batch>, lines: seq<CartLine>)
    requires SerialBatches(bs)
    ensures var w := SellLines(bs, lines);
      |w| == |bs| && forall x :: 0 <= x < |bs| && Untouched(lines, bs[x].productId) ==> w[x] == bs[x]
    decreases |lines|
  {
    if |lines| > 0 {
      var n := |lines| - 1;
      var prefix, line := lines[..n], lines[n];
      SellLinesKeepOthers(bs, prefix);
      SellLinesShape(bs, prefix);
      var w' := SellLines(bs, prefix);
      SellLineShape(w', line.id, line.quantity);
      var w := SellLines(bs, lines);
      forall x | 0 <= x < |bs| && Untouched(lines, bs[x].productId) ensures w[x] == bs[x] {
        UntouchedPrefix(lines, bs[x].productId);
      }
    }
  }

  /** A product no line of a cart is for is no line of its prefix either, nor of its last line. */
  lemma UntouchedPrefix(lines: seq<CartLine>, pid: nat)
    requires |lines| > 0 && Untouched(lines, pid)
    ensures Untouched(lines[..|lines| - 1], pid) && lines[|lines| - 1].id != pid
  {
    assert forall k :: 0 <= k < |lines| - 1 ==> lines[..|lines| - 1][k] == lines[k];
  }

  /** Selling the lines of a cart keeps the stock of every product not in it. */
  lemma SellLinesKeepOtherStock(bs: seq<Batch>, lines: seq<CartLine>, pid: nat)
    requires SerialBatches(bs) && Untouched(lines, pid)
    ensures StockOf(SellLines(bs, lines), pid) == StockOf(bs, pid)
  {
    SellLinesShape(bs, lines);
    SellLinesKeepOthers(bs, lines);
    StockOfAgree(SellLines(bs, lines), bs, pid);
  }

  /** Every line's product in w has lost exactly that line's quantity against bs. */
  ghost predicate Lowered(bs: seq<Batch>, w: seq<Batch>, lines: seq<CartLine>)
  {
    forall k :: 0 <= k < |lines| ==> StockOf(w, lines[k].id) == StockOf(bs, lines[k].id) - lines[k].quantity
  }

  /**
   * Selling the lines of a valid cart, each within its product's stock, lowers every
   * line's product by exactly that line's quantity.
   */
  lemma {:induction false} SellLinesStock(bs: seq<Batch>, lines: seq<CartLine>)
    requires SerialBatches(bs) && UniqueIds(lines) && WithinStock(lines, bs)
    ensures Lowered(bs, SellLines(bs, lines), lines)
    decreases |lines|
  {
    if |lines| > 0 {
      var n := |lines| - 1;
      var prefix, line := lines[..n], lines[n];
      LastLineFacts(bs, lines);
      SellLinesStock(bs, prefix);
      SellLastLineStock(bs, prefix, line, SellLines(bs, prefix));
    }
  }

  /** What SellLinesStock needs of a non-empty cart's prefix and last line. */
  lemma LastLineFacts(bs: seq<Batch>, lines: seq<CartLine>)
    requires UniqueIds(lines) && WithinStock(lines, bs) && |lines| > 0
    ensures var prefix, line := lines[..|lines| - 1], lines[|lines| - 1];
      && lines == prefix + [line]
      && UniqueIds(prefix) && WithinStock(prefix, bs)
      && Untouched(prefix, line.id) && 0 <= line.quantity <= StockOf(bs, line.id)
  {
    var n := |lines| - 1;
    assert forall k :: 0 <= k < n ==> lines[..n][k] == lines[k];
  }

  /**
   * The step of SellLinesStock: selling one more line lowers its product by its
   * quantity and keeps what the earlier lines did to theirs.
   */
  lemma SellLastLineStock(bs: seq<Batch>, prefix: seq<CartLine>, line: CartLine, w': seq<Batch>)
    requires SerialBatches(bs) && w' == SellLines(bs, prefix)
    requires Untouched(prefix, line.id) && 0 <= line.quantity <= StockOf(bs, line.id)
    requires Lowered(bs, w', prefix)
    ensures Lowered(bs, SellLines(bs, prefix + [line]), prefix + [line])
  {
    SellLinesShape(bs, prefix);
    SellLinesKeepOtherStock(bs, prefix, line.id);
    SellLineStock(w', line.id, line.quantity);
    var w := SellLine(w', line.id, line.quantity);
    var lines := prefix + [line];
    assert lines[..|prefix|] == prefix;
    assert SellLines(bs, lines) == w;
    forall k | 0 <= k < |lines|
      ensures StockOf(w, lines[k].id) == StockOf(bs, lines[k].id) - lines[k].quantity
    {
      if k < |prefix| {
        assert lines[k] == prefix[k];
        SellLineKeepsOtherStock(w', line.id, line.quantity, prefix[k].id);
      }
    }
  }

  /**
   * Before line i is sold its product still has the stock it had before the sale, and
   * FIFO costs the line exactly as it would have on the table before the sale.
   */
  lemma SellLinesPrefixAgree(bs: seq<Batch>, lines: seq<CartLine>, i: nat)
    requires SerialBatches(bs) && UniqueIds(lines) && i < |lines|
    ensures StockOf(SellLines(bs, lines[..i]), lines[i].id) == StockOf(bs, lines[i].id)
    ensures LineCost(SellLines(bs, lines[..i]), lines[i].id, lines[i].quantity) == LineCost(bs, lines[i].id, lines[i].quantity)
  {
    var prefix := lines[..i];
    assert forall k :: 0 <= k < i ==> prefix[k] == lines[k];
    UntouchedAgree(bs, prefix, lines[i].id);
  }

  /** Selling lines of other products leaves a product's batches and stock as they were. */
  lemma UntouchedAgree(bs: seq<Batch>, prefix: seq<CartLine>, pid: nat)
    requires SerialBatches(bs) && Untouched(prefix, pid)
    ensures SaleBatches(SellLines(bs, prefix), pid) == SaleBatches(bs, pid)
    ensures StockOf(SellLines(bs, prefix), pid) == StockOf(bs, pid)
  {
    SellLinesShape(bs, prefix);
    SellLinesKeepOthers(bs, prefix);
    var w := SellLines(bs, prefix);
    SaleBatchesAgree(w, bs, pid);
    StockOfAgree(w, bs, pid);
  }

  /** One cart line of confirmSale: FIFO over the product's batches, its sale item, the write-back. */
  method SaveLine(db: Store, saleId: nat, item: CartLine)
    requires db.Valid()
    requires 0 <= item.quantity <= StockOf(db.batches, item.id)
    modifies db`batches, db`saleItems
    ensures db.Valid()
    ensures db.batches == SellLine(old(db.batches), item.id, item.quantity)
    ensures db.saleItems == old(db.saleItems) +
      [SaleItem(saleId, item.id, item.quantity, item.price, LineCost(old(db.batches), item.id, item.quantity))]
  {
    var batches := SaleBatches(db.batches, item.id);
    SellLineSucceeds(db.batches, item.id, item.quantity);
    var r := CalculateFifo(batches, item.quantity);
    var alloc := r.value;
    db.InsertSaleItem(SaleItem(saleId, item.id, item.quantity, item.price, alloc.costOfGoodsSold));
    WriteBackBatches(db, alloc.updatedBatches);
  }

  /** The inner loop of confirmSale: each updated batch's remaining quantity written back by id. */
  method WriteBackBatches(db: Store, updated: seq<Batch>)
    requires db.Valid()
    modifies db`batches
    ensures db.Valid()
    ensures db.batches == WriteBack(old(db.batches), updated)
  {
    ghost var orig := db.batches;
    for j := 0 to |updated|
      invariant db.Valid()
      invariant db.batches == WriteBack(orig, updated[..j])
    {
      assert updated[..j + 1][..j] == updated[..j];
      db.UpdateBatchRemaining(updated[j].id, updated[j].remaining);
    }
    assert updated[..|updated|] == updated;
  }

  /**
   * The final stock check of confirmSale: the first line asking for more than its
   * product's summed remaining quantity, if any.
   */
  method FinalStockCheck(batches: seq<Batch>, lines: seq<CartLine>) returns (short: Option<nat>)
    requires forall k :: 0 <= k < |lines| ==> lines[k].quantity > 0
    ensures short.None? <==> WithinStock(lines, batches)
    ensures short.Some? ==> short.value < |lines| && lines[short.value].quantity > StockOf(batches, lines[short.value].id)
    ensures short.Some? ==> WithinStock(lines[..short.value], batches)
  {
    for i := 0 to |lines|
      invariant WithinStock(lines[..i], batches)
    {
      var totalStock := StockOf(batches, lines[i].id);
      if lines[i].quantity > totalStock {
        return Some(i);
      }
      assert lines[..i + 1] == lines[..i] + [lines[i]];
    }
    assert lines[..|lines|] == lines;
    return None;
  }

  /** The second loop of confirmSale: every line's sale item and stock deduction, in cart order. */
  method SaveLines(db: Store, saleId: nat, lines: seq<CartLine>)
    requires db.Valid() && UniqueIds(lines) && WithinStock(lines, db.batches)
    modifies db`batches, db`saleItems
    ensures db.Valid()
    ensures db.batches == SellLines(old(db.batches), lines)
    ensures db.saleItems == old(db.saleItems) + SaleItemsFor(saleId, lines, old(db.batches))
  {
    ghost var orig := db.batches;
    for i := 0 to |lines|
      invariant db.Valid()
      invariant db.batches == SellLines(orig, lines[..i])
      invariant db.saleItems == old(db.saleItems) + SaleItemsFor(saleId, lines[..i], orig)
    {
      SaveNextLine(db, saleId, lines, i, orig, old(db.saleItems));
    }
    assert lines[..|lines|] == lines;
  }

  /** One turn of SaveLines' loop: line i is saved on top of lines[..i]. */
  method SaveNextLine(db: Store, saleId: nat, lines: seq<CartLine>, i: nat, ghost orig: seq<Batch>, ghost start: seq<SaleItem>)
    requires db.Valid() && SerialBatches(orig) && UniqueIds(lines) && WithinStock(lines, orig) && i < |lines|
    requires db.batches == SellLines(orig, lines[..i])
    requires db.saleItems == start + SaleItemsFor(saleId, lines[..i], orig)
    modifies db`batches, db`saleItems
    ensures db.Valid()
    ensures db.batches == SellLines(orig, lines[..i + 1])
    ensures db.saleItems == start + SaleItemsFor(saleId, lines[..i + 1], orig)
  {
    SaveLinesStep(orig, saleId, lines, i);
    var line := lines[i];
    ghost var before := SellLines(orig, lines[..i]);
    AppendAssoc(start, SaleItemsFor(saleId, lines[..i], orig),
      [SaleItem(saleId, line.id, line.quantity, line.price, LineCost(before, line.id, line.quantity))]);
    SaveLine(db, saleId, line);
  }

  lemma SaleItemsForAppend(saleId: nat, lines: seq<CartLine>, line: CartLine, bs: seq<Batch>)
    ensures SaleItemsFor(saleId, lines + [line], bs) ==
      SaleItemsFor(saleId, lines, bs) + [SaleItem(saleId, line.id, line.quantity, line.price, LineCost(bs, line.id, line.quantity))]
  {
  }

  /** What one more turn of SaveLines' loop adds to the table and to the sale items. */
  lemma SaveLinesStep(bs: seq<Batch>, saleId: nat, lines: seq<CartLine>, i: nat)
    requires SerialBatches(bs) && UniqueIds(lines) && WithinStock(lines, bs) && i < |lines|
    ensures var before := SellLines(bs, lines[..i]);
      && 0 <= lines[i].quantity <= StockOf(before, lines[i].id)
      && SellLines(bs, lines[..i + 1]) == SellLine(before, lines[i].id, lines[i].quantity)
      && SaleItemsFor(saleId, lines[..i + 1], bs) == SaleItemsFor(saleId, lines[..i], bs) +
           [SaleItem(saleId, lines[i].id, lines[i].quantity, lines[i].price, LineCost(before, lines[i].id, lines[i].quantity))]
  {
    assert lines[..i + 1][..i] == lines[..i];
    assert lines[..i + 1] == lines[..i] + [lines[i]];
    SellLinesPrefixAgree(bs, lines, i);
    SaleItemsForAppend(saleId, lines[..i], lines[i], bs);
  }

  /**
   * confirmSale. `displayId` and `now` stand for the display id and created_at the database
   * gives the new sales row, and `insertSucceeds` for whether that insert returns without an
   * error (a failed insert throws before anything else is written). On failure nothing is
   * written; on success the sale row holds the cart total, every active line has its sale
   * item costed by FIFO against the stock as it was before the sale, and every line's
   * product has lost exactly that line's quantity.
   */
  method ConfirmSale(db: Store, cart: seq<CartLine>, displayId: string, now: int, insertSucceeds: bool)
    returns (r: Result<nat, SaleError>)
    requires db.Valid() && CartValid(cart)
    modifies db`batches, db`sales, db`saleItems
    ensures db.Valid()
    ensures |ActiveLines(cart)| == 0 ==> r == Failure(EmptyCart)
    ensures r.Failure? <==>
      |ActiveLines(cart)| == 0 || !WithinStock(ActiveLines(cart), old(db.batches)) || !insertSucceeds
    ensures r == Failure(SaleInsertFailed) <==>
      |ActiveLines(cart)| > 0 && WithinStock(ActiveLines(cart), old(db.batches)) && !insertSucceeds
    ensures r.Failure? ==>
      db.batches == old(db.batches) && db.sales == old(db.sales) && db.saleItems == old(db.saleItems)
    ensures r.Failure? && r.error.NotEnoughStockFor? ==>
      exists k :: 0 <= k < |ActiveLines(cart)| && ActiveLines(cart)[k].name == r.error.name &&
        ActiveLines(cart)[k].quantity > StockOf(old(db.batches), ActiveLines(cart)[k].id)
    ensures r.Success? ==>
      && r.value == |old(db.sales)|
      && db.sales == old(db.sales) + [Sale(r.value, displayId, now, Total(cart), None)]
      && db.saleItems == old(db.saleItems) + SaleItemsFor(r.value, ActiveLines(cart), old(db.batches))
      && db.batches == SellLines(old(db.batches), ActiveLines(cart))
    ensures r.Success? ==> forall k :: 0 <= k < |ActiveLines(cart)| ==>
      StockOf(db.batches, ActiveLines(cart)[k].id) ==
        StockOf(old(db.batches), ActiveLines(cart)[k].id) - ActiveLines(cart)[k].quantity
    ensures r.Success? ==> forall pid :: Untouched(ActiveLines(cart), pid) ==>
      StockOf(db.batches, pid) == StockOf(old(db.batches), pid)
    ensures KeepsStamps(old(db.sales), db.sales)
  {
    var active := ActiveLines(cart);
    if |active| == 0 {
      return Failure(EmptyCart);
    }
    ActiveLinesValid(cart);
    var short := FinalStockCheck(db.batches, active);
    if short.Some? {
      return Failure(NotEnoughStockFor(active[short.value].name));
    }
    if !insertSucceeds {
      return Failure(SaleInsertFailed);
    }
    ghost var orig := db.batches;
    var saleId := db.InsertSale(displayId, now, Total(cart));
    SaveLines(db, saleId, active);
    SellLinesStock(orig, active);
    forall pid | Untouched(active, pid) ensures StockOf(db.batches, pid) == StockOf(orig, pid) {
      SellLinesKeepOtherStock(orig, active, pid);
    }
    r := Success(saleId);
  }
}
