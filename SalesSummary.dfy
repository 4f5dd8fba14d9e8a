/**
 * The dashboard's summary card: sales and profit of today, of the week starting
 * on Monday, and of the month, summed over the per-day map.
 */
module SalesSummary {
  import opened Seqs
  import opened Dashboard

  datatype Bucket = Bucket(sales: int, profit: int)
  datatype Summary = Summary(today: Bucket, week: Bucket, month: Bucket)

  const Zero := Summary(Bucket(0, 0), Bucket(0, 0), Bucket(0, 0))

  /** The local calendar's reading of the current time: year, month 0-11, day of month, day of week (0 = Sunday). */
  datatype Now = Now(year: int, month: int, date: int, dayOfWeek: int)

  /** How many days back the week's Monday is: the week start falls on a Monday within the last seven days. */
  function DaysToSubtract(dayOfWeek: int): (r: int)
    requires 0 <= dayOfWeek <= 6
    ensures 0 <= r <= 6
    ensures (dayOfWeek - r + 7) % 7 == 1
  {
    if dayOfWeek == 0 then 6 else dayOfWeek - 1
  }

  /**
   * The three window starts; `midnight(y, m, d)` stands for `new Date(y, m, d)`,
   * local midnight of that day, with out-of-range days rolling over.
   */
  function TodayStart(now: Now, midnight: (int, int, int) -> int): int
  {
    midnight(now.year, now.month, now.date)
  }

  function WeekStart(now: Now, midnight: (int, int, int) -> int): int
    requires 0 <= now.dayOfWeek <= 6
  {
    midnight(now.year, now.month, now.date - DaysToSubtract(now.dayOfWeek))
  }

  function MonthStart(now: Now, midnight: (int, int, int) -> int): int
  {
    midnight(now.year, now.month, 1)
  }

  /** The days whose key, read back as a time by `parse` (`new Date(dateStr)`), is not before `start`. */
  function Window(keys: seq<string>, parse: string -> int, start: int): seq<string>
  {
    Filter(keys, (k: string) => parse(k) >= start)
  }

  function DaySales(daily: map<string, DayTotals>): string -> int
  {
    (k: string) => At(daily, k).sales
  }

  function DayProfit(daily: map<string, DayTotals>): string -> int
  {
    (k: string) => At(daily, k).profit
  }

  /** Sales and profit summed over the same days. */
  function BucketOf(daily: map<string, DayTotals>, days: seq<string>): Bucket
  {
    Bucket(SumBy(days, DaySales(daily)), SumBy(days, DayProfit(daily)))
  }

  function SalesFrom(daily: map<string, DayTotals>, parse: string -> int, start: int): string -> int
  {
    (k: string) => if parse(k) >= start then At(daily, k).sales else 0
  }

  function ProfitFrom(daily: map<string, DayTotals>, parse: string -> int, start: int): string -> int
  {
    (k: string) => if parse(k) >= start then At(daily, k).profit else 0
  }

  /** The six running totals after the days in `done`. */
  ghost predicate Accumulated(done: seq<string>, daily: map<string, DayTotals>, parse: string -> int,
                              today: int, week: int, month: int,
                              todaySales: int, todayProfit: int, weekSales: int, weekProfit: int,
                              monthSales: int, monthProfit: int)
  {
    && todaySales == SumBy(done, SalesFrom(daily, parse, today)) && todayProfit == SumBy(done, ProfitFrom(daily, parse, today))
    && weekSales == SumBy(done, SalesFrom(daily, parse, week)) && weekProfit == SumBy(done, ProfitFrom(daily, parse, week))
    && monthSales == SumBy(done, SalesFrom(daily, parse, month)) && monthProfit == SumBy(done, ProfitFrom(daily, parse, month))
  }

  /** Adding one day's entry to the six running totals. */
  lemma AccumulateStep(done: seq<string>, k: string, daily: map<string, DayTotals>, parse: string -> int,
                       today: int, week: int, month: int,
                       todaySales: int, todayProfit: int, weekSales: int, weekProfit: int,
                       monthSales: int, monthProfit: int)
    requires Accumulated(done, daily, parse, today, week, month,
                         todaySales, todayProfit, weekSales, weekProfit, monthSales, monthProfit)
    ensures var d := At(daily, k);
      Accumulated(done + [k], daily, parse, today, week, month,
        if parse(k) >= today then todaySales + d.sales else todaySales,
        if parse(k) >= today then todayProfit + d.profit else todayProfit,
        if parse(k) >= week then weekSales + d.sales else weekSales,
        if parse(k) >= week then weekProfit + d.profit else weekProfit,
        if parse(k) >= month then monthSales + d.sales else monthSales,
        if parse(k) >= month then monthProfit + d.profit else monthProfit)
  {
    SumByAppend(done, k, SalesFrom(daily, parse, today));
    SumByAppend(done, k, ProfitFrom(daily, parse, today));
    SumByAppend(done, k, SalesFrom(daily, parse, week));
    SumByAppend(done, k, ProfitFrom(daily, parse, week));
    SumByAppend(done, k, SalesFrom(daily, parse, month));
    SumByAppend(done, k, ProfitFrom(daily, parse, month));
  }

  /** A window's running totals are the bucket of the days of that window. */
  lemma WindowBucket(keys: seq<string>, daily: map<string, DayTotals>, parse: string -> int, start: int)
    ensures BucketOf(daily, Window(keys, parse, start))
         == Bucket(SumBy(keys, SalesFrom(daily, parse, start)), SumBy(keys, ProfitFrom(daily, parse, start)))
  {
    var p := (k: string) => parse(k) >= start;
    SumByFilter(keys, p, DaySales(daily), SalesFrom(daily, parse, start));
    SumByFilter(keys, p, DayProfit(daily), ProfitFrom(daily, parse, start));
  }

  /**
   * The summary effect. While loading the card keeps what it shows; with an
   * empty map every total is zero; otherwise each bucket is the sales and the
   * profit summed over the days on or after its start, with no upper bound.
   * `keys` is `Object.keys(dailyData)`: each day of the map once.
   */
  method Summarize(previous: Summary, loading: bool, daily: map<string, DayTotals>, keys: seq<string>,
                   now: Now, midnight: (int, int, int) -> int, parse: string -> int)
    returns (summary: Summary)
    requires 0 <= now.dayOfWeek <= 6
    requires forall k :: k in daily <==> k in keys
    requires NoDup(keys)
    ensures loading ==> summary == previous
    ensures !loading && |daily| == 0 ==> summary == Zero
    ensures !loading ==> summary == Summary(
      BucketOf(daily, Window(keys, parse, TodayStart(now, midnight))),
      BucketOf(daily, Window(keys, parse, WeekStart(now, midnight))),
      BucketOf(daily, Window(keys, parse, MonthStart(now, midnight))))
  {
    if loading {
      return previous;
    }
    var today, week, month := TodayStart(now, midnight), WeekStart(now, midnight), MonthStart(now, midnight);
    if |keys| == 0 {
      assert daily.Keys == {};
      return Zero;
    }
    var todaySales, todayProfit, weekSales, weekProfit, monthSales, monthProfit := 0, 0, 0, 0, 0, 0;
    for i := 0 to |keys|
      invariant Accumulated(keys[..i], daily, parse, today, week, month,
                            todaySales, todayProfit, weekSales, weekProfit, monthSales, monthProfit)
    {
      var k := keys[i];
      var data := daily[k];
      assert data == At(daily, k);
      assert keys[..i + 1] == keys[..i] + [k];
      AccumulateStep(keys[..i], k, daily, parse, today, week, month,
                     todaySales, todayProfit, weekSales, weekProfit, monthSales, monthProfit);
      if parse(k) >= today {
        todaySales := todaySales + data.sales;
        todayProfit := todayProfit + data.profit;
      }
      if parse(k) >= week {
        weekSales := weekSales + data.sales;
        weekProfit := weekProfit + data.profit;
      }
      if parse(k) >= month {
        monthSales := monthSales + data.sales;
        monthProfit := monthProfit + data.profit;
      }
    }
    assert keys[..|keys|] == keys;
    WindowBucket(keys, daily, parse, today);
    WindowBucket(keys, daily, parse, week);
    WindowBucket(keys, daily, parse, month);
    assert |daily| > 0 by {
      assert keys[0] in daily;
    }
    summary := Summary(Bucket(todaySales, todayProfit), Bucket(weekSales, weekProfit), Bucket(monthSales, monthProfit));
  }

  /**
   * Today starts no earlier than the week and the month, so any time counted in
   * today is counted in the week and the month, provided local midnight does not
   * go back as the day of the month goes forward.
   */
  lemma TodayInWeekAndMonth(now: Now, midnight: (int, int, int) -> int, t: int)
    requires 0 <= now.dayOfWeek <= 6 && 1 <= now.date
    requires forall a, b :: a <= b ==> midnight(now.year, now.month, a) <= midnight(now.year, now.month, b)
    requires t >= TodayStart(now, midnight)
    ensures t >= WeekStart(now, midnight) && t >= MonthStart(now, midnight)
  {
    assert midnight(now.year, now.month, now.date - DaysToSubtract(now.dayOfWeek)) <= midnight(now.year, now.month, now.date);
    assert midnight(now.year, now.month, 1) <= midnight(now.year, now.month, now.date);
  }

  /** With no negative day totals, today's sales are at most the week's and at most the month's. */
  lemma TodayAtMostWeekAndMonth(daily: map<string, DayTotals>, keys: seq<string>, now: Now,
                                midnight: (int, int, int) -> int, parse: string -> int)
    requires 0 <= now.dayOfWeek <= 6 && 1 <= now.date
    requires forall a, b :: a <= b ==> midnight(now.year, now.month, a) <= midnight(now.year, now.month, b)
    requires forall i :: 0 <= i < |keys| ==> At(daily, keys[i]).sales >= 0
    ensures BucketOf(daily, Window(keys, parse, TodayStart(now, midnight))).sales
         <= BucketOf(daily, Window(keys, parse, WeekStart(now, midnight))).sales
    ensures BucketOf(daily, Window(keys, parse, TodayStart(now, midnight))).sales
         <= BucketOf(daily, Window(keys, parse, MonthStart(now, midnight))).sales
  {
    var today, week, month := TodayStart(now, midnight), WeekStart(now, midnight), MonthStart(now, midnight);
    WindowBucket(keys, daily, parse, today);
    WindowBucket(keys, daily, parse, week);
    WindowBucket(keys, daily, parse, month);
    forall i | 0 <= i < |keys|
      ensures SalesFrom(daily, parse, today)(keys[i]) <= SalesFrom(daily, parse, week)(keys[i])
      ensures SalesFrom(daily, parse, today)(keys[i]) <= SalesFrom(daily, parse, month)(keys[i])
    {
      if parse(keys[i]) >= today {
        TodayInWeekAndMonth(now, midnight, parse(keys[i]));
      }
    }
    SumByMonotone(keys, SalesFrom(daily, parse, today), SalesFrom(daily, parse, week));
    SumByMonotone(keys, SalesFrom(daily, parse, today), SalesFrom(daily, parse, month));
  }
}
