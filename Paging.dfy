/**
 * The page arithmetic shared by the sales list (10 per page) and the product
 * table (200 per page): the page count, the shown slice, and the clamp applied to
 * the "Go to page" box.
 */
module Paging {
  import opened Wrappers

  /** `Math.ceil(n / size)`. */
  function TotalPages(n: nat, size: nat): (r: nat)
    requires size > 0
    ensures n <= r * size
    ensures r > 0 ==> (r - 1) * size < n
    ensures r == 0 <==> n == 0
  {
    (n + size - 1) / size
  }

  /** Resolves one `Array.prototype.slice` bound: negative counts from the end. */
  function SliceBound(len: nat, k: int): (r: nat)
    ensures r <= len
    ensures 0 <= k <= len ==> r == k
  {
    if k < 0 then (if len + k < 0 then 0 else len + k) else if k > len then len else k
  }

  /** `s.slice(start, end)`. */
  function JsSlice<T>(s: seq<T>, start: int, end: int): (r: seq<T>)
    ensures |r| <= |s|
  {
    var from := SliceBound(|s|, start);
    var to := SliceBound(|s|, end);
    if to <= from then [] else s[from..to]
  }

  /** `items.slice((page - 1) * size, (page - 1) * size + size)`. */
  function PageOf<T>(items: seq<T>, page: int, size: nat): seq<T>
  {
    JsSlice(items, (page - 1) * size, (page - 1) * size + size)
  }

  /**
   * Page `page` (from 1) shows items [(page-1)*size, page*size), cut at the end of
   * the list, so a page holds at most `size` items.
   */
  lemma PageContents<T>(items: seq<T>, page: int, size: nat)
    requires page >= 1 && size > 0
    ensures var lo := (page - 1) * size;
      PageOf(items, page, size) == if lo >= |items| then [] else items[lo..if lo + size <= |items| then lo + size else |items|]
    ensures |PageOf(items, page, size)| <= size
  {
    var lo := (page - 1) * size;
    assert lo >= 0;
  }

  /** Any page, even one numbered below 1, holds at most `size` items, each from the list. */
  lemma PageWithin<T>(items: seq<T>, page: int, size: nat)
    ensures |PageOf(items, page, size)| <= size
    ensures forall x :: x in PageOf(items, page, size) ==> x in items
  {
  }

  lemma MulMonotonic(a: int, b: int, c: nat)
    requires a <= b
    ensures a * c <= b * c
  {
  }

  /** Item i = q * size + r (0 <= r < size) exists on a page, page q + 1 counted from 1. */
  lemma PageOfIndexExists(n: nat, i: nat, size: nat, q: nat, r: nat)
    requires i < n && size > 0 && i == q * size + r && r < size
    ensures q + 1 <= TotalPages(n, size)
  {
    var t := TotalPages(n, size);
    if t <= q {
      MulMonotonic(t, q, size);
      assert false;
    }
  }

  /** Index i of a window that starts at lo and contains i sits at offset i - lo. */
  lemma WindowHolds<T>(items: seq<T>, lo: nat, size: nat, i: nat)
    requires lo <= i < lo + size && i < |items|
    ensures var w := JsSlice(items, lo, lo + size); i - lo < |w| && w[i - lo] == items[i]
  {
  }

  /**
   * Every item is on the page given by its index: item q * size + r is the r-th
   * entry of page q + 1, and that page exists.
   */
  lemma EveryItemOnItsPage<T>(items: seq<T>, size: nat, q: nat, r: nat)
    requires size > 0 && r < size && q * size + r < |items|
    ensures q + 1 <= TotalPages(|items|, size)
    ensures var p := PageOf(items, q + 1, size); r < |p| && p[r] == items[q * size + r]
  {
    var lo := q * size;
    PageOfIndexExists(|items|, lo + r, size, q, r);
    assert q + 1 - 1 == q;
    assert PageOf(items, q + 1, size) == JsSlice(items, lo, lo + size);
    WindowHolds(items, lo, size, lo + r);
  }

  /**
   * The "Go to page" handler: `parseInt` that gives NaN (None) or a value below 1
   * becomes 1, then anything above the page count becomes the page count.
   */
  function ClampPage(typed: Option<int>, totalPages: nat): (r: int)
    ensures totalPages >= 1 ==> 1 <= r <= totalPages
    ensures typed.Some? && 1 <= typed.value <= totalPages ==> r == typed.value
    ensures totalPages >= 1 && (typed.None? || typed.value < 1) ==> r == 1
    ensures typed.Some? && typed.value > totalPages ==> r == totalPages
  {
    var p := if typed.None? || typed.value < 1 then 1 else typed.value;
    if p > totalPages then totalPages else p
  }
}
