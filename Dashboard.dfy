/**
 * The dashboard calendar's per-day data: sales and profit summed over the day's
 * sale rows, whether the day saw any stock activity, and whether a schedule
 * falls on it. The browser's local calendar is the function `local`; `dayOf`
 * is the day key of a timestamp under it.
 */
module Dashboard {
  import opened Seqs
  import opened DayKey
  import opened ProductService

  datatype DayTotals = DayTotals(sales: int, profit: int, hasStockActivity: bool, hasSchedule: bool)

  const Empty := DayTotals(0, 0, false, false)

  /** `${getFullYear()}-${month}-${date}` of a timestamp, on the local calendar. */
  function DayFn(local: int -> Date): int -> string
  {
    (t: int) => Key(local(t))
  }

  function At(daily: map<string, DayTotals>, k: string): DayTotals
  {
    if k in daily then daily[k] else Empty
  }

  function SalesOn(dayOf: int -> string, k: string): SaleRow -> int
  {
    (r: SaleRow) => if dayOf(r.date) == k then r.amount else 0
  }

  function ProfitOn(dayOf: int -> string, k: string): SaleRow -> int
  {
    (r: SaleRow) => if dayOf(r.date) == k then r.grossProfit else 0
  }

  ghost predicate SaleOn(rows: seq<SaleRow>, dayOf: int -> string, k: string)
  {
    exists i :: 0 <= i < |rows| && dayOf(rows[i].date) == k
  }

  ghost predicate StockInOn(rows: seq<StockInRow>, dayOf: int -> string, k: string)
  {
    exists i :: 0 <= i < |rows| && dayOf(rows[i].date) == k
  }

  ghost predicate ScheduleOn(dates: seq<int>, dayOf: int -> string, k: string)
  {
    exists i :: 0 <= i < |dates| && dayOf(dates[i]) == k
  }

  /** Day k's entry after the sale rows have been added to `start`. */
  ghost function WithSales(start: map<string, DayTotals>, rows: seq<SaleRow>, dayOf: int -> string, k: string): DayTotals
  {
    var e := At(start, k);
    e.(sales := e.sales + SumBy(rows, SalesOn(dayOf, k)),
       profit := e.profit + SumBy(rows, ProfitOn(dayOf, k)),
       hasStockActivity := e.hasStockActivity || SaleOn(rows, dayOf, k))
  }

  /** One more sale row extends every day's sums by its own contribution, and only its day's. */
  lemma {:induction false} WithSalesStep(start: map<string, DayTotals>, rows: seq<SaleRow>, i: nat, dayOf: int -> string, k: string)
    requires i < |rows|
    ensures var e := WithSales(start, rows[..i], dayOf, k);
      WithSales(start, rows[..i + 1], dayOf, k)
        == if dayOf(rows[i].date) == k
           then e.(sales := e.sales + rows[i].amount, profit := e.profit + rows[i].grossProfit, hasStockActivity := true)
           else e
  {
    assert rows[..i + 1] == rows[..i] + [rows[i]];
    SumByAppend(rows[..i], rows[i], SalesOn(dayOf, k));
    SumByAppend(rows[..i], rows[i], ProfitOn(dayOf, k));
    if SaleOn(rows[..i + 1], dayOf, k) {
      var j :| 0 <= j < i + 1 && dayOf(rows[..i + 1][j].date) == k;
      if j < i {
        assert rows[..i][j] == rows[..i + 1][j];
      }
    }
    if SaleOn(rows[..i], dayOf, k) {
      var j :| 0 <= j < i && dayOf(rows[..i][j].date) == k;
      assert rows[..i + 1][j] == rows[..i][j];
    }
    if dayOf(rows[i].date) == k {
      assert rows[..i + 1][i] == rows[i];
    }
  }

  /** A day without sale rows sums to nothing. */
  lemma {:induction false} NoSaleNoSums(rows: seq<SaleRow>, dayOf: int -> string, k: string)
    requires !SaleOn(rows, dayOf, k)
    ensures SumBy(rows, SalesOn(dayOf, k)) == 0 && SumBy(rows, ProfitOn(dayOf, k)) == 0
    decreases |rows|
  {
    if |rows| > 0 {
      var n := |rows| - 1;
      assert forall j :: 0 <= j < n ==> rows[..n][j] == rows[j];
      NoSaleNoSums(rows[..n], dayOf, k);
    }
  }

  /** The `allSaleItems.forEach` callback: the row's day gains its amount and profit and is marked active. */
  function AddSaleRow(daily: map<string, DayTotals>, item: SaleRow, dayOf: int -> string): map<string, DayTotals>
  {
    var date := dayOf(item.date);
    var entry := if date in daily then daily[date] else Empty;
    daily[date := entry.(sales := entry.sales + item.amount,
                         profit := entry.profit + item.grossProfit,
                         hasStockActivity := true)]
  }

  /** Adding row i keeps the map equal to the entries of rows[..i + 1]. */
  lemma AddSaleRowStep(start: map<string, DayTotals>, daily: map<string, DayTotals>, rows: seq<SaleRow>, i: nat, dayOf: int -> string)
    requires i < |rows|
    requires forall k :: k in daily <==> k in start || SaleOn(rows[..i], dayOf, k)
    requires forall k :: k in daily ==> daily[k] == WithSales(start, rows[..i], dayOf, k)
    ensures var next := AddSaleRow(daily, rows[i], dayOf);
      && (forall k :: k in next <==> k in start || SaleOn(rows[..i + 1], dayOf, k))
      && (forall k :: k in next ==> next[k] == WithSales(start, rows[..i + 1], dayOf, k))
  {
    var date := dayOf(rows[i].date);
    var next := AddSaleRow(daily, rows[i], dayOf);
    forall k ensures SaleOn(rows[..i + 1], dayOf, k) <==> SaleOn(rows[..i], dayOf, k) || date == k {
      assert forall j :: 0 <= j < i ==> rows[..i + 1][j] == rows[..i][j];
      assert rows[..i + 1][i] == rows[i];
    }
    if date !in daily {
      NoSaleNoSums(rows[..i], dayOf, date);
    }
    forall k | k in next ensures next[k] == WithSales(start, rows[..i + 1], dayOf, k) {
      WithSalesStep(start, rows, i, dayOf, k);
    }
  }

  /** The `allSaleItems.forEach`: each row adds its amount and profit to its day and marks it active. */
  method AddSales(start: map<string, DayTotals>, rows: seq<SaleRow>, dayOf: int -> string)
    returns (daily: map<string, DayTotals>)
    ensures forall k :: k in daily <==> k in start || SaleOn(rows, dayOf, k)
    ensures forall k :: k in daily ==> daily[k] == WithSales(start, rows, dayOf, k)
  {
    daily := start;
    for i := 0 to |rows|
      invariant forall k :: k in daily <==> k in start || SaleOn(rows[..i], dayOf, k)
      invariant forall k :: k in daily ==> daily[k] == WithSales(start, rows[..i], dayOf, k)
    {
      AddSaleRowStep(start, daily, rows, i, dayOf);
      daily := AddSaleRow(daily, rows[i], dayOf);
    }
    assert rows[..|rows|] == rows;
  }

  /** The `allStockInItems.forEach` callback: the row's day is marked active. */
  function AddStockInRow(daily: map<string, DayTotals>, item: StockInRow, dayOf: int -> string): map<string, DayTotals>
  {
    var date := dayOf(item.date);
    var entry := if date in daily then daily[date] else Empty;
    daily[date := entry.(hasStockActivity := true)]
  }

  /** The `allSchedules.forEach` callback: the schedule's day is marked scheduled. */
  function AddScheduleDate(daily: map<string, DayTotals>, date: int, dayOf: int -> string): map<string, DayTotals>
  {
    var day := dayOf(date);
    var entry := if day in daily then daily[day] else Empty;
    daily[day := entry.(hasSchedule := true)]
  }

  /** The `allStockInItems.forEach`: each row only marks its day active. */
  method AddStockIns(start: map<string, DayTotals>, rows: seq<StockInRow>, dayOf: int -> string)
    returns (daily: map<string, DayTotals>)
    ensures forall k :: k in daily <==> k in start || StockInOn(rows, dayOf, k)
    ensures forall k :: k in daily ==>
      daily[k] == At(start, k).(hasStockActivity := At(start, k).hasStockActivity || StockInOn(rows, dayOf, k))
  {
    daily := start;
    for i := 0 to |rows|
      invariant forall k :: k in daily <==> k in start || StockInOn(rows[..i], dayOf, k)
      invariant forall k :: k in daily ==>
        daily[k] == At(start, k).(hasStockActivity := At(start, k).hasStockActivity || StockInOn(rows[..i], dayOf, k))
    {
      forall k ensures StockInOn(rows[..i + 1], dayOf, k) <==> StockInOn(rows[..i], dayOf, k) || dayOf(rows[i].date) == k {
        assert forall j :: 0 <= j < i ==> rows[..i + 1][j] == rows[..i][j];
        assert rows[..i + 1][i] == rows[i];
      }
      daily := AddStockInRow(daily, rows[i], dayOf);
    }
    assert rows[..|rows|] == rows;
  }

  /** The `allSchedules.forEach`: each schedule only marks its day as scheduled. */
  method AddSchedules(start: map<string, DayTotals>, dates: seq<int>, dayOf: int -> string)
    returns (daily: map<string, DayTotals>)
    ensures forall k :: k in daily <==> k in start || ScheduleOn(dates, dayOf, k)
    ensures forall k :: k in daily ==>
      daily[k] == At(start, k).(hasSchedule := At(start, k).hasSchedule || ScheduleOn(dates, dayOf, k))
  {
    daily := start;
    for i := 0 to |dates|
      invariant forall k :: k in daily <==> k in start || ScheduleOn(dates[..i], dayOf, k)
      invariant forall k :: k in daily ==>
        daily[k] == At(start, k).(hasSchedule := At(start, k).hasSchedule || ScheduleOn(dates[..i], dayOf, k))
    {
      forall k ensures ScheduleOn(dates[..i + 1], dayOf, k) <==> ScheduleOn(dates[..i], dayOf, k) || dayOf(dates[i]) == k {
        assert forall j :: 0 <= j < i ==> dates[..i + 1][j] == dates[..i][j];
        assert dates[..i + 1][i] == dates[i];
      }
      daily := AddScheduleDate(daily, dates[i], dayOf);
    }
    assert dates[..|dates|] == dates;
  }

  /**
   * `fetchAndAggregateDailyData`: a day has an entry iff a sale row, a stock-in
   * or a schedule falls on it; its sales and profit are the sums of amount and
   * gross profit over that day's sale rows alone (stock-ins and schedules add
   * nothing); it shows stock activity iff it has a sale row or a stock-in, and a
   * schedule iff one falls on it.
   */
  method AggregateDaily(saleRows: seq<SaleRow>, stockIns: seq<StockInRow>, schedules: seq<int>, local: int -> Date)
    returns (daily: map<string, DayTotals>)
    ensures var dayOf := DayFn(local);
      forall k :: k in daily <==> SaleOn(saleRows, dayOf, k) || StockInOn(stockIns, dayOf, k) || ScheduleOn(schedules, dayOf, k)
    ensures var dayOf := DayFn(local);
      forall k :: k in daily ==> daily[k] == DayTotals(
        SumBy(saleRows, SalesOn(dayOf, k)),
        SumBy(saleRows, ProfitOn(dayOf, k)),
        SaleOn(saleRows, dayOf, k) || StockInOn(stockIns, dayOf, k),
        ScheduleOn(schedules, dayOf, k))
  {
    var dayOf := DayFn(local);
    var afterSales := AddSales(map[], saleRows, dayOf);
    var afterStock := AddStockIns(afterSales, stockIns, dayOf);
    daily := AddSchedules(afterStock, schedules, dayOf);
    forall k | k in daily
      ensures daily[k] == DayTotals(SumBy(saleRows, SalesOn(dayOf, k)), SumBy(saleRows, ProfitOn(dayOf, k)),
                                    SaleOn(saleRows, dayOf, k) || StockInOn(stockIns, dayOf, k), ScheduleOn(schedules, dayOf, k))
    {
      DayEntry(saleRows, stockIns, schedules, dayOf, k, At(afterSales, k), At(afterStock, k), daily[k]);
    }
  }

  /** A day's entry after the three passes, from what each pass left in it. */
  lemma DayEntry(saleRows: seq<SaleRow>, stockIns: seq<StockInRow>, schedules: seq<int>, dayOf: int -> string, k: string,
                 a: DayTotals, b: DayTotals, d: DayTotals)
    requires a == if SaleOn(saleRows, dayOf, k) then WithSales(map[], saleRows, dayOf, k) else Empty
    requires b == a.(hasStockActivity := a.hasStockActivity || StockInOn(stockIns, dayOf, k))
    requires d == b.(hasSchedule := b.hasSchedule || ScheduleOn(schedules, dayOf, k))
    ensures d == DayTotals(SumBy(saleRows, SalesOn(dayOf, k)), SumBy(saleRows, ProfitOn(dayOf, k)),
                           SaleOn(saleRows, dayOf, k) || StockInOn(stockIns, dayOf, k), ScheduleOn(schedules, dayOf, k))
  {
    if !SaleOn(saleRows, dayOf, k) {
      NoSaleNoSums(saleRows, dayOf, k);
    }
  }
}
