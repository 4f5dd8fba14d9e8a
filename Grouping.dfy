/**
 * Grouping report rows by product name, as the reports do with a plain object
 * or an accumulator array: one group per name, in the order the names are
 * first seen, each carrying the sum of a figure over the rows of that name.
 */
module Grouping {
  import opened Wrappers
  import opened Seqs

  /** The distinct names of the rows, each at the position of its first row. */
  function Names<T>(rows: seq<T>, name: T -> string): (r: seq<string>)
    ensures NoDup(r)
    ensures forall n :: n in r <==> exists i :: 0 <= i < |rows| && name(rows[i]) == n
  {
    if |rows| == 0 then []
    else
      var front := Names(rows[..|rows| - 1], name);
      NamesStep(rows, rows[..|rows| - 1], name, front);
      var n := name(rows[|rows| - 1]);
      if n in front then front else front + [n]
  }

  /** The rows of a sequence are those of its prefix and its last element. */
  lemma NamesStep<T>(rows: seq<T>, prefix: seq<T>, name: T -> string, front: seq<string>)
    requires |rows| > 0 && prefix == rows[..|rows| - 1]
    requires forall n :: n in front <==> exists i :: 0 <= i < |prefix| && name(prefix[i]) == n
    ensures forall n :: n in front || n == name(rows[|rows| - 1]) <==> exists i :: 0 <= i < |rows| && name(rows[i]) == n
  {
    var k := |rows| - 1;
    forall n ensures n in front || n == name(rows[k]) <==> exists i :: 0 <= i < |rows| && name(rows[i]) == n {
      if n in front {
        var i :| 0 <= i < k && name(prefix[i]) == n;
        assert name(rows[i]) == n;
      }
      if exists i :: 0 <= i < |rows| && name(rows[i]) == n {
        var i :| 0 <= i < |rows| && name(rows[i]) == n;
        if i < k {
          assert name(prefix[i]) == n;
        }
      }
    }
  }

  /** A row's figure when it carries name n, and nothing otherwise. */
  function Only<T>(name: T -> string, n: string, value: T -> int): T -> int
  {
    (r: T) => if name(r) == n then value(r) else 0
  }

  /** The sum of the figure over the rows named n. */
  function Total<T>(rows: seq<T>, name: T -> string, n: string, value: T -> int): int
  {
    SumBy(rows, Only(name, n, value))
  }

  function TotalOf<T>(rows: seq<T>, name: T -> string, value: T -> int): string -> int
  {
    (n: string) => Total(rows, name, n, value)
  }

  /** One more row adds its figure to its own name's total and to no other. */
  lemma TotalAppend<T>(rows: seq<T>, x: T, name: T -> string, n: string, value: T -> int)
    ensures Total(rows + [x], name, n, value) == Total(rows, name, n, value) + (if name(x) == n then value(x) else 0)
  {
    SumByAppend(rows, x, Only(name, n, value));
  }

  /** A name no row carries totals to nothing. */
  lemma {:induction false} TotalAbsent<T>(rows: seq<T>, name: T -> string, n: string, value: T -> int)
    requires n !in Names(rows, name)
    ensures Total(rows, name, n, value) == 0
    decreases |rows|
  {
    if |rows| > 0 {
      var k := |rows| - 1;
      assert forall i :: 0 <= i < k ==> rows[..k][i] == rows[i];
      TotalAbsent(rows[..k], name, n, value);
    }
  }

  /** Over a list of distinct names, a figure that only one name carries sums to that figure. */
  lemma {:induction false} SumOfSingle(names: seq<string>, m: string, c: int, f: string -> int)
    requires NoDup(names)
    requires forall i :: 0 <= i < |names| ==> f(names[i]) == if names[i] == m then c else 0
    ensures SumBy(names, f) == if m in names then c else 0
    decreases |names|
  {
    if |names| > 0 {
      var k := |names| - 1;
      assert names == names[..k] + [names[k]];
      assert NoDup(names[..k]);
      SumOfSingle(names[..k], m, c, f);
    }
  }

  /** One more row raises the sum of the totals over the names by its figure, when its name is among them. */
  lemma TotalsGrow<T>(names: seq<string>, front: seq<T>, x: T, name: T -> string, value: T -> int)
    requires NoDup(names)
    ensures SumBy(names, TotalOf(front + [x], name, value))
         == SumBy(names, TotalOf(front, name, value)) + (if name(x) in names then value(x) else 0)
  {
    var m := name(x);
    var delta := (n: string) => if n == m then value(x) else 0;
    forall n ensures TotalOf(front + [x], name, value)(n) == TotalOf(front, name, value)(n) + delta(n) {
      TotalAppend(front, x, name, n, value);
    }
    SumByAdd(names, TotalOf(front, name, value), delta, TotalOf(front + [x], name, value));
    SumOfSingle(names, m, value(x), delta);
  }

  /** Summing every name's total gives the figure summed over all rows: grouping loses nothing. */
  lemma {:induction false} TotalsSumToAll<T>(rows: seq<T>, name: T -> string, value: T -> int)
    ensures SumBy(Names(rows, name), TotalOf(rows, name, value)) == SumBy(rows, value)
    decreases |rows|
  {
    if |rows| > 0 {
      var k := |rows| - 1;
      var front, x := rows[..k], rows[k];
      var m := name(x);
      assert rows == front + [x];
      var names := Names(front, name);
      TotalsSumToAll(front, name, value);
      NamesAppend(front, x, name);
      TotalsGrow(names, front, x, name, value);
      SumByAppend(front, x, value);
      if m !in names {
        TotalAbsent(front, name, m, value);
        TotalAppend(front, x, name, m, value);
        SumByAppend(names, m, TotalOf(front + [x], name, value));
      }
    }
  }

  /** `Array.prototype.find` by name: the first element carrying name n, if any. */
  function FindBy<T>(s: seq<T>, name: T -> string, n: string): (r: Option<nat>)
    ensures r.Some? ==> r.value < |s| && name(s[r.value]) == n
    ensures r.Some? ==> forall k :: 0 <= k < r.value ==> name(s[k]) != n
    ensures r.None? <==> forall k :: 0 <= k < |s| ==> name(s[k]) != n
  {
    if |s| == 0 then None
    else if name(s[0]) == n then Some(0)
    else
      match FindBy(s[1..], name, n)
      case None => None
      case Some(j) => Some(j + 1)
  }

  /** Over groups lined up with distinct names, `find` by name lands on that name's own group. */
  lemma FindByLinedUp<G>(acc: seq<G>, name: G -> string, names: seq<string>, n: string)
    requires NoDup(names) && |acc| == |names|
    requires forall k :: 0 <= k < |acc| ==> name(acc[k]) == names[k]
    ensures n !in names ==> FindBy(acc, name, n) == None
    ensures forall j :: 0 <= j < |names| && names[j] == n ==> FindBy(acc, name, n) == Some(j)
  {
  }

  /** A text field of the first row named n (the group keeps its first row's sku). */
  function FirstOf<T>(rows: seq<T>, name: T -> string, n: string, field: T -> string): string
  {
    if |rows| == 0 then ""
    else
      var front := rows[..|rows| - 1];
      if n in Names(front, name) then FirstOf(front, name, n, field)
      else if name(rows[|rows| - 1]) == n then field(rows[|rows| - 1])
      else ""
  }

  /** FirstOf is the field of the row `find` by name would return. */
  lemma {:induction false} FirstOfIsFirst<T>(rows: seq<T>, name: T -> string, n: string, field: T -> string)
    requires n in Names(rows, name)
    ensures FindBy(rows, name, n).Some?
    ensures FirstOf(rows, name, n, field) == field(rows[FindBy(rows, name, n).value])
    decreases |rows|
  {
    var k := |rows| - 1;
    var front := rows[..k];
    var j := FindBy(rows, name, n).value;
    if n in Names(front, name) {
      FirstOfIsFirst(front, name, n, field);
      var j' := FindBy(front, name, n).value;
      assert front[j'] == rows[j'];
      assert forall i :: 0 <= i < j' ==> front[i] == rows[i];
    } else {
      assert forall i :: 0 <= i < k ==> front[i] == rows[i];
    }
  }

  /** One more row adds its name at the end unless the name was already seen. */
  lemma NamesAppend<T>(p: seq<T>, x: T, name: T -> string)
    ensures Names(p + [x], name) == if name(x) in Names(p, name) then Names(p, name) else Names(p, name) + [name(x)]
  {
    assert (p + [x])[..|p|] == p;
  }

  /** One more row sets the first field only of a name not seen before. */
  lemma FirstOfAppend<T>(p: seq<T>, x: T, name: T -> string, n: string, field: T -> string)
    ensures FirstOf(p + [x], name, n, field)
         == if n in Names(p, name) then FirstOf(p, name, n, field) else if name(x) == n then field(x) else ""
  {
    assert (p + [x])[..|p|] == p;
  }

  /**
   * Groups that line up with the names and carry each name's total of a figure
   * sum to the figure over all rows.
   */
  lemma GroupsSum<G, T>(groups: seq<G>, figure: G -> int, rows: seq<T>, name: T -> string, value: T -> int)
    requires |groups| == |Names(rows, name)|
    requires forall j :: 0 <= j < |groups| ==> figure(groups[j]) == Total(rows, name, Names(rows, name)[j], value)
    ensures SumBy(groups, figure) == SumBy(rows, value)
  {
    SumByPairwise(groups, figure, Names(rows, name), TotalOf(rows, name, value));
    TotalsSumToAll(rows, name, value);
  }
}
