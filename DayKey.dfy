/**
 * The calendar-day key the dashboard, the day modal and the summary group by:
 * the local year, then the month (1-12) and the day of the month, each padded to
 * two digits, joined by dashes ("2024-03-07").
 */
module DayKey {

  /** A local calendar date as the `Date` getters give it: month 0-11, day 1-31. */
  datatype Date = Date(year: nat, month: nat, day: nat)

  ghost predicate ValidDate(d: Date)
  {
    d.month <= 11 && 1 <= d.day <= 31
  }

  function DigitChar(n: nat): (c: char)
    requires n <= 9
    ensures '0' <= c <= '9'
  {
    ('0' as int + n) as char
  }

  function DigitValue(c: char): int
  {
    c as int - '0' as int
  }

  /** `n.toString()` for a natural number. */
  function Decimal(n: nat): (s: string)
    ensures |s| >= 1
    ensures n < 10 ==> |s| == 1
    ensures 10 <= n < 100 ==> |s| == 2
    ensures forall i :: 0 <= i < |s| ==> '0' <= s[i] <= '9'
  {
    if n < 10 then [DigitChar(n)] else Decimal(n / 10) + [DigitChar(n % 10)]
  }

  /** Reads a string of decimal digits back as a number. */
  function ParseDecimal(s: string): int
  {
    if |s| == 0 then 0 else ParseDecimal(s[..|s| - 1]) * 10 + DigitValue(s[|s| - 1])
  }

  /** Printing a number in decimal and reading it back gives the number. */
  lemma {:induction false} ParseDecimalOfDecimal(n: nat)
    ensures ParseDecimal(Decimal(n)) == n
  {
    if n >= 10 {
      var s := Decimal(n);
      assert s[..|s| - 1] == Decimal(n / 10);
      ParseDecimalOfDecimal(n / 10);
    }
  }

  /** `n.toString().padStart(2, '0')`. */
  function Pad2(n: nat): (s: string)
    ensures n < 100 ==> |s| == 2
  {
    if n < 10 then "0" + Decimal(n) else Decimal(n)
  }

  lemma ParsePad2(n: nat)
    requires n < 100
    ensures ParseDecimal(Pad2(n)) == n
  {
    if n < 10 {
      var s := Pad2(n);
      assert s == ['0', DigitChar(n)];
      assert s[..1] == ['0'] && ['0'][..0] == [];
      assert ParseDecimal(['0']) == 0;
    } else {
      ParseDecimalOfDecimal(n);
    }
  }

  /** The day key of a local date. */
  function Key(d: Date): string
  {
    Decimal(d.year) + "-" + Pad2(d.month + 1) + "-" + Pad2(d.day)
  }

  /** The key ends in "-MM-DD": two dashes at fixed distances from the end. */
  lemma KeyShape(d: Date)
    requires ValidDate(d)
    ensures var k := Key(d); var n := |k|;
      && n == |Decimal(d.year)| + 6
      && k[n - 6] == '-' && k[n - 3] == '-'
      && k[..n - 6] == Decimal(d.year)
      && k[n - 5..n - 3] == Pad2(d.month + 1)
      && k[n - 2..] == Pad2(d.day)
  {
  }

  /** Distinct dates have distinct keys, so grouping by key is grouping by date. */
  lemma KeyInjective(a: Date, b: Date)
    requires ValidDate(a) && ValidDate(b)
    requires Key(a) == Key(b)
    ensures a == b
  {
    KeyShape(a);
    KeyShape(b);
    var k := Key(a);
    var n := |k|;
    assert Decimal(a.year) == k[..n - 6] == Decimal(b.year);
    assert Pad2(a.month + 1) == k[n - 5..n - 3] == Pad2(b.month + 1);
    assert Pad2(a.day) == k[n - 2..] == Pad2(b.day);
    ParseDecimalOfDecimal(a.year);
    ParseDecimalOfDecimal(b.year);
    ParsePad2(a.month + 1);
    ParsePad2(b.month + 1);
    ParsePad2(a.day);
    ParsePad2(b.day);
  }
}
