/**
 * The dashboard's two pie charts: the five products sold in the largest
 * quantities (`fetchFastMovingItems`) and the five with the largest gross
 * profit (`fetchHighProfitItems`), each tallied per product name.
 */
module TopItems {
  import opened Wrappers
  import opened Seqs
  import opened Grouping
  import opened Ranking
  import opened ProductService

  /** One slice of a chart: `{ name, value }`. */
  datatype Tally = Tally(name: string, value: int)

  function TallyName(t: Tally): string { t.name }
  function TallyValue(t: Tally): int { t.value }

  /** One tally per product name, in first-seen order, holding the name's summed figure. */
  function Tallies(rows: seq<SaleRow>, value: SaleRow -> int): (r: seq<Tally>)
    ensures |r| == |Names(rows, SaleName)|
    ensures forall j :: 0 <= j < |r| ==> r[j] == Tally(Names(rows, SaleName)[j], Total(rows, SaleName, Names(rows, SaleName)[j], value))
  {
    var names := Names(rows, SaleName);
    seq(|names|, j requires 0 <= j < |names| => Tally(names[j], Total(rows, SaleName, names[j], value)))
  }

  /** The object keyed by name, with its keys in insertion order, holds the tallies of `rows`. */
  ghost predicate Tallied(byName: map<string, Tally>, order: seq<string>, rows: seq<SaleRow>, value: SaleRow -> int)
  {
    && order == Names(rows, SaleName)
    && (forall n :: n in byName <==> n in order)
    && (forall n :: n in byName ==> byName[n] == Tally(n, Total(rows, SaleName, n, value)))
  }

  /** The `forEach` callback: create the name's entry at 0 when it is missing, then add the row's figure. */
  function Enter(byName: map<string, Tally>, item: SaleRow, value: SaleRow -> int): map<string, Tally>
  {
    var entry := if item.productName in byName then byName[item.productName] else Tally(item.productName, 0);
    byName[item.productName := entry.(value := entry.value + value(item))]
  }

  /** Entering one more row keeps the object equal to the tallies of the longer rows. */
  lemma EnterStep(byName: map<string, Tally>, order: seq<string>, p: seq<SaleRow>, x: SaleRow, value: SaleRow -> int)
    requires Tallied(byName, order, p, value)
    ensures Tallied(Enter(byName, x, value), if x.productName in byName then order else order + [x.productName], p + [x], value)
  {
    NamesAppend(p, x, SaleName);
    var entered := Enter(byName, x, value);
    forall n | n in entered ensures entered[n] == Tally(n, Total(p + [x], SaleName, n, value)) {
      TotalAppend(p, x, SaleName, n, value);
      if n == x.productName && n !in byName {
        TotalAbsent(p, SaleName, n, value);
      }
    }
  }

  /**
   * The `forEach` that fills the object keyed by product name: a name's entry is
   * created at 0 the first time it is seen, then every row adds its figure.
   * `Object.values` lists the entries in the order their names were inserted.
   */
  method TallyBy(rows: seq<SaleRow>, value: SaleRow -> int) returns (tallies: seq<Tally>)
    ensures tallies == Tallies(rows, value)
  {
    var byName: map<string, Tally> := map[];
    var order: seq<string> := [];
    for i := 0 to |rows|
      invariant Tallied(byName, order, rows[..i], value)
    {
      var item := rows[i];
      assert rows[..i + 1] == rows[..i] + [item];
      EnterStep(byName, order, rows[..i], item, value);
      if item.productName !in byName {
        order := order + [item.productName];
      }
      byName := Enter(byName, item, value);
    }
    assert rows[..|rows|] == rows;
    tallies := seq(|order|, j requires 0 <= j < |order| => byName[order[j]]);
  }

  /** The chart's slices: the top five tallies by value. */
  function TopTallies(rows: seq<SaleRow>, value: SaleRow -> int): seq<Tally>
  {
    TopFive(Tallies(rows, value), TallyValue)
  }

  /**
   * At most five slices, of distinct products, largest value first; each slice's
   * value is the figure summed over that product's rows, and no product left out
   * has a larger value than a kept one.
   */
  lemma TopTalliesFacts(rows: seq<SaleRow>, value: SaleRow -> int)
    ensures var r := TopTallies(rows, value);
      && |r| <= TopCount
      && (forall i, j :: 0 <= i < j < |r| ==> r[i].name != r[j].name)
      && (forall i, j :: 0 <= i < j < |r| ==> r[i].value >= r[j].value)
      && (forall k :: 0 <= k < |r| ==> r[k].value == Total(rows, SaleName, r[k].name, value))
    ensures var r := TopTallies(rows, value);
      forall n :: n in Names(rows, SaleName) && (forall k :: 0 <= k < |r| ==> r[k].name != n) ==>
        forall k :: 0 <= k < |r| ==> Total(rows, SaleName, n, value) <= r[k].value
  {
    var all := Tallies(rows, value);
    var names := Names(rows, SaleName);
    var r := TopTallies(rows, value);
    TopFiveRanks(all, TallyValue);
    assert forall i, j :: 0 <= i < j < |all| ==> TallyName(all[i]) != TallyName(all[j]);
    DistinctNamesSubset(all, r, TallyName);
    forall k | 0 <= k < |r| ensures r[k].value == Total(rows, SaleName, r[k].name, value) {
      assert r[k] in multiset(all);
    }
    LeftOutSmaller(rows, value);
  }

  /** A product with no slice has a tally no larger than any slice's value. */
  lemma LeftOutSmaller(rows: seq<SaleRow>, value: SaleRow -> int)
    ensures var r := TopTallies(rows, value);
      forall n :: n in Names(rows, SaleName) && (forall k :: 0 <= k < |r| ==> r[k].name != n) ==>
        forall k :: 0 <= k < |r| ==> Total(rows, SaleName, n, value) <= r[k].value
  {
    var all := Tallies(rows, value);
    var names := Names(rows, SaleName);
    var r := TopTallies(rows, value);
    TopFiveRanks(all, TallyValue);
    forall n | n in names && (forall k :: 0 <= k < |r| ==> r[k].name != n)
      ensures forall k :: 0 <= k < |r| ==> Total(rows, SaleName, n, value) <= r[k].value
    {
      var j :| 0 <= j < |names| && names[j] == n;
      assert all[j] in all && all[j] !in r;
    }
  }

  /** `fetchFastMovingItems`: a failed query leaves the chart empty. */
  method FetchFastMovingItems(saleRows: Option<seq<SaleRow>>) returns (items: seq<Tally>)
    ensures saleRows.None? ==> items == []
    ensures saleRows.Some? ==> items == TopTallies(saleRows.value, SaleQuantity)
  {
    if saleRows.None? {
      return [];
    }
    var tallies := TallyBy(saleRows.value, SaleQuantity);
    items := TopFive(tallies, TallyValue);
  }

  /** `fetchHighProfitItems`: as above, by summed gross profit, which may be negative. */
  method FetchHighProfitItems(saleRows: Option<seq<SaleRow>>) returns (items: seq<Tally>)
    ensures saleRows.None? ==> items == []
    ensures saleRows.Some? ==> items == TopTallies(saleRows.value, GrossProfit)
  {
    if saleRows.None? {
      return [];
    }
    var tallies := TallyBy(saleRows.value, GrossProfit);
    items := TopFive(tallies, TallyValue);
  }
}
