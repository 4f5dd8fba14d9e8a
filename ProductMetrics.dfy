/**
 * `fetchProductMetrics`: the top five products by quantity and by gross profit,
 * and the three lists drawn from them — products in both (golden), profitable
 * but not fast-moving, and fast-moving but not profitable.
 */
module ProductMetrics {
  import opened Wrappers
  import opened Seqs
  import opened Grouping
  import opened Ranking
  import opened ProductService

  /** `{ name, quantity, profit }` of one product. */
  datatype Metric = Metric(name: string, quantity: int, profit: int)

  /** The three lists the card shows. */
  datatype Segments = Segments(highProfitSlowMoving: seq<string>, fastMovingLowProfit: seq<string>, goldenProducts: seq<string>)

  function MetricName(m: Metric): string { m.name }
  function MetricQuantity(m: Metric): int { m.quantity }
  function MetricProfit(m: Metric): int { m.profit }

  function MetricOf(rows: seq<SaleRow>, n: string): Metric
  {
    Metric(n, Total(rows, SaleName, n, SaleQuantity), Total(rows, SaleName, n, GrossProfit))
  }

  /** One metric per product name, in first-seen order, with quantity and profit summed over its rows. */
  function Metrics(rows: seq<SaleRow>): (r: seq<Metric>)
    ensures |r| == |Names(rows, SaleName)|
    ensures forall j :: 0 <= j < |r| ==> r[j] == MetricOf(rows, Names(rows, SaleName)[j])
  {
    var names := Names(rows, SaleName);
    seq(|names|, j requires 0 <= j < |names| => MetricOf(rows, names[j]))
  }

  ghost predicate Collected(byName: map<string, Metric>, order: seq<string>, rows: seq<SaleRow>)
  {
    && order == Names(rows, SaleName)
    && (forall n :: n in byName <==> n in order)
    && (forall n :: n in byName ==> byName[n] == MetricOf(rows, n))
  }

  /** The `forEach` callback: create the name's entry at 0/0 when it is missing, then add the row. */
  function Enter(byName: map<string, Metric>, item: SaleRow): map<string, Metric>
  {
    var entry := if item.productName in byName then byName[item.productName] else Metric(item.productName, 0, 0);
    byName[item.productName := entry.(quantity := entry.quantity + item.quantity, profit := entry.profit + item.grossProfit)]
  }

  /** One more row adds its quantity and profit to its own product's metric and to no other. */
  lemma MetricOfAppend(p: seq<SaleRow>, x: SaleRow, n: string)
    ensures n != x.productName ==> MetricOf(p + [x], n) == MetricOf(p, n)
    ensures n == x.productName ==>
      MetricOf(p + [x], n) == MetricOf(p, n).(quantity := MetricOf(p, n).quantity + x.quantity,
                                              profit := MetricOf(p, n).profit + x.grossProfit)
  {
    TotalAppend(p, x, SaleName, n, SaleQuantity);
    TotalAppend(p, x, SaleName, n, GrossProfit);
  }

  lemma EnterStep(byName: map<string, Metric>, order: seq<string>, p: seq<SaleRow>, x: SaleRow)
    requires Collected(byName, order, p)
    ensures Collected(Enter(byName, x), if x.productName in byName then order else order + [x.productName], p + [x])
  {
    NamesAppend(p, x, SaleName);
    var entered := Enter(byName, x);
    forall n | n in entered ensures entered[n] == MetricOf(p + [x], n) {
      MetricOfAppend(p, x, n);
      if n == x.productName && n !in byName {
        TotalAbsent(p, SaleName, n, SaleQuantity);
        TotalAbsent(p, SaleName, n, GrossProfit);
      }
    }
  }

  /** The `forEach` that fills `productData`, then `Object.values(productData)`. */
  method CollectMetrics(rows: seq<SaleRow>) returns (all: seq<Metric>)
    ensures all == Metrics(rows)
  {
    var byName: map<string, Metric> := map[];
    var order: seq<string> := [];
    for i := 0 to |rows|
      invariant Collected(byName, order, rows[..i])
    {
      var item := rows[i];
      assert rows[..i + 1] == rows[..i] + [item];
      EnterStep(byName, order, rows[..i], item);
      if item.productName !in byName {
        order := order + [item.productName];
      }
      byName := Enter(byName, item);
    }
    assert rows[..|rows|] == rows;
    all := seq(|order|, j requires 0 <= j < |order| => byName[order[j]]);
  }

  /** `.map(p => p.name)`. */
  function NamesOf(ms: seq<Metric>): (r: seq<string>)
    ensures |r| == |ms|
    ensures forall i :: 0 <= i < |ms| ==> r[i] == ms[i].name
  {
    seq(|ms|, i requires 0 <= i < |ms| => ms[i].name)
  }

  function InList(names: seq<string>): string -> bool
  {
    (n: string) => n in names
  }

  function NotInList(names: seq<string>): string -> bool
  {
    (n: string) => n !in names
  }

  /** The three lists drawn from the two top-five name lists, by `Set.has`. */
  function Segment(fast: seq<string>, high: seq<string>): Segments
  {
    Segments(Filter(high, NotInList(fast)), Filter(fast, NotInList(high)), Filter(fast, InList(high)))
  }

  function TopFastMoving(all: seq<Metric>): seq<string>
  {
    NamesOf(TopFive(all, MetricQuantity))
  }

  function TopHighProfit(all: seq<Metric>): seq<string>
  {
    NamesOf(TopFive(all, MetricProfit))
  }

  /** `fetchProductMetrics`: a failed query leaves the lists as they were. */
  method FetchProductMetrics(previous: Segments, saleRows: Option<seq<SaleRow>>) returns (m: Segments)
    ensures saleRows.None? ==> m == previous
    ensures saleRows.Some? ==>
      var all := Metrics(saleRows.value);
      m == Segment(TopFastMoving(all), TopHighProfit(all))
  {
    if saleRows.None? {
      return previous;
    }
    var all := CollectMetrics(saleRows.value);
    var fast := NamesOf(TopFive(all, MetricQuantity));
    var high := NamesOf(TopFive(all, MetricProfit));
    m := Segment(fast, high);
  }

  /**
   * Each top-five list holds at most five distinct names, ordered by
   * non-increasing summed quantity (respectively profit).
   */
  lemma TopListsRanked(rows: seq<SaleRow>)
    ensures var fast := TopFive(Metrics(rows), MetricQuantity);
      && |fast| <= TopCount
      && (forall i, j :: 0 <= i < j < |fast| ==> fast[i].name != fast[j].name && fast[i].quantity >= fast[j].quantity)
    ensures var high := TopFive(Metrics(rows), MetricProfit);
      && |high| <= TopCount
      && (forall i, j :: 0 <= i < j < |high| ==> high[i].name != high[j].name && high[i].profit >= high[j].profit)
  {
    var all := Metrics(rows);
    assert forall i, j :: 0 <= i < j < |all| ==> MetricName(all[i]) != MetricName(all[j]);
    TopFiveRanks(all, MetricQuantity);
    TopFiveRanks(all, MetricProfit);
    DistinctNamesSubset(all, TopFive(all, MetricQuantity), MetricName);
    DistinctNamesSubset(all, TopFive(all, MetricProfit), MetricName);
  }

  /**
   * Golden and fast-moving-low-profit split the fast list between them; golden
   * and high-profit-slow-moving together are exactly the high list; no name is
   * in two of the three lists.
   */
  lemma SegmentsPartition(fast: seq<string>, high: seq<string>)
    ensures var s := Segment(fast, high);
      multiset(s.goldenProducts) + multiset(s.fastMovingLowProfit) == multiset(fast)
    ensures var s := Segment(fast, high);
      forall n :: n in high <==> n in s.goldenProducts || n in s.highProfitSlowMoving
    ensures var s := Segment(fast, high);
      forall n :: !(n in s.goldenProducts && n in s.fastMovingLowProfit)
        && !(n in s.goldenProducts && n in s.highProfitSlowMoving)
        && !(n in s.highProfitSlowMoving && n in s.fastMovingLowProfit)
  {
    var s := Segment(fast, high);
    FilterSplit(fast, InList(high), NotInList(high));
    forall n | n in high ensures n in s.goldenProducts || n in s.highProfitSlowMoving {
      if n in fast {
        assert InList(high)(n);
      } else {
        assert NotInList(fast)(n);
      }
    }
  }
}
