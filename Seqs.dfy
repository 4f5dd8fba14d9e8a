/** Sums, filters and small sequence facts shared by the aggregations. */
module Seqs {
  import opened Wrappers

  /** Sum of f over s, accumulated from the left as `reduce((sum, x) => sum + f(x), 0)` does. */
  function SumBy<T>(s: seq<T>, f: T -> int): int
  {
    if |s| == 0 then 0 else SumBy(s[..|s| - 1], f) + f(s[|s| - 1])
  }

  /** The elements of s that satisfy p, in their original order (`Array.prototype.filter`). */
  function Filter<T>(s: seq<T>, p: T -> bool): (r: seq<T>)
    ensures |r| <= |s|
    ensures forall i :: 0 <= i < |r| ==> r[i] in s && p(r[i])
    ensures forall i :: 0 <= i < |s| && p(s[i]) ==> s[i] in r
    ensures multiset(r) <= multiset(s)
  {
    if |s| == 0 then []
    else
      var r := Filter(s[..|s| - 1], p);
      assert s == s[..|s| - 1] + [s[|s| - 1]];
      if p(s[|s| - 1]) then r + [s[|s| - 1]] else r
  }

  function Min(a: int, b: int): (r: int)
    ensures r <= a && r <= b && (r == a || r == b)
  {
    if a < b then a else b
  }

  /** Adding one element at the end adds its value to the sum. */
  lemma SumByAppend<T>(s: seq<T>, x: T, f: T -> int)
    ensures SumBy(s + [x], f) == SumBy(s, f) + f(x)
  {
    assert (s + [x])[..|s + [x]| - 1] == s;
  }

  /** The sum of a concatenation is the sum of its parts. */
  lemma {:induction false} SumByConcat<T>(a: seq<T>, b: seq<T>, f: T -> int)
    ensures SumBy(a + b, f) == SumBy(a, f) + SumBy(b, f)
    decreases |b|
  {
    if |b| == 0 {
      assert a + b == a;
    } else {
      var b' := b[..|b| - 1];
      assert a + b == (a + b') + [b[|b| - 1]];
      assert b == b' + [b[|b| - 1]];
      SumByAppend(a + b', b[|b| - 1], f);
      SumByAppend(b', b[|b| - 1], f);
      SumByConcat(a, b', f);
    }
  }

  /** The sum is the first element plus the sum of the rest. */
  lemma SumByCons<T>(x: T, s: seq<T>, f: T -> int)
    ensures SumBy([x] + s, f) == f(x) + SumBy(s, f)
  {
    SumByConcat([x], s, f);
    assert [x][..0] == [];
  }

  /** Replacing one element changes the sum by the difference of the two values. */
  lemma {:induction false} SumByUpdate<T>(s: seq<T>, i: nat, x: T, f: T -> int)
    requires i < |s|
    ensures SumBy(s[i := x], f) == SumBy(s, f) - f(s[i]) + f(x)
  {
    var front, back := s[..i], s[i + 1..];
    assert s == front + [s[i]] + back;
    assert s[i := x] == front + [x] + back;
    SumByConcat(front + [s[i]], back, f);
    SumByConcat(front + [x], back, f);
    SumByAppend(front, s[i], f);
    SumByAppend(front, x, f);
  }

  /** Sums agree on sequences with the same multiset of elements. */
  lemma {:induction false} SumByPermutation<T>(a: seq<T>, b: seq<T>, f: T -> int)
    requires multiset(a) == multiset(b)
    ensures SumBy(a, f) == SumBy(b, f)
    decreases |a|
  {
    if |a| == 0 {
      assert |b| == |multiset(b)| == 0;
    } else {
      var x := a[|a| - 1];
      var a' := a[..|a| - 1];
      assert a == a' + [x];
      assert x in multiset(b);
      var j :| 0 <= j < |b| && b[j] == x;
      var b' := b[..j] + b[j + 1..];
      assert b == b[..j] + [x] + b[j + 1..];
      assert multiset(b) == multiset(b[..j]) + multiset{x} + multiset(b[j + 1..]);
      assert multiset(b') == multiset(b[..j]) + multiset(b[j + 1..]);
      assert multiset(a) == multiset(a') + multiset{x};
      assert multiset(a') == multiset(a) - multiset{x};
      assert multiset(b') == multiset(b) - multiset{x};
      SumByPermutation(a', b', f);
      SumByAppend(a', x, f);
      SumByConcat(b[..j] + [x], b[j + 1..], f);
      SumByAppend(b[..j], x, f);
      SumByConcat(b[..j], b[j + 1..], f);
    }
  }

  /** Dropping only elements whose figure is at most zero cannot lower the sum. */
  /** Filtering a concatenation filters each part. */
  lemma {:induction false} FilterConcat<T>(a: seq<T>, b: seq<T>, p: T -> bool)
    ensures Filter(a + b, p) == Filter(a, p) + Filter(b, p)
    decreases |b|
  {
    if |b| == 0 {
      assert a + b == a;
    } else {
      var b', x := b[..|b| - 1], b[|b| - 1];
      var tail := if p(x) then [x] else [];
      FilterConcat(a, b', p);
      assert (a + b)[..|a + b| - 1] == a + b' && (a + b)[|a + b| - 1] == x;
      assert Filter(a + b, p) == Filter(a + b', p) + tail;
      assert Filter(b, p) == Filter(b', p) + tail;
      AppendAssoc(Filter(a, p), Filter(b', p), tail);
    }
  }

  /** Filtering a sequence with x in front keeps x exactly when it passes. */
  lemma FilterCons<T>(x: T, s: seq<T>, p: T -> bool)
    ensures Filter([x] + s, p) == (if p(x) then [x] else []) + Filter(s, p)
  {
    var head := if p(x) then [x] else [];
    assert [x][..0] == [] && [x][0] == x;
    assert Filter([x], p) == Filter([], p) + head;
    assert Filter([x], p) == head;
    FilterConcat([x], s, p);
  }

  /** Filtering a non-empty sequence keeps its head exactly when it passes. */
  lemma FilterHead<T>(s: seq<T>, p: T -> bool)
    requires |s| > 0
    ensures Filter(s, p) == (if p(s[0]) then [s[0]] else []) + Filter(s[1..], p)
  {
    HeadTail(s);
    FilterCons(s[0], s[1..], p);
  }

  lemma HeadTail<T>(s: seq<T>)
    requires |s| > 0
    ensures s == [s[0]] + s[1..]
  {
  }

  lemma {:induction false} SumByFilterNonPositiveDropped<T>(s: seq<T>, p: T -> bool, f: T -> int)
    requires forall i :: 0 <= i < |s| && !p(s[i]) ==> f(s[i]) <= 0
    ensures SumBy(Filter(s, p), f) >= SumBy(s, f)
    decreases |s|
  {
    if |s| > 0 {
      var s' := s[..|s| - 1];
      var x := s[|s| - 1];
      assert s == s' + [x];
      SumByFilterNonPositiveDropped(s', p, f);
      if p(x) {
        SumByAppend(Filter(s', p), x, f);
      }
    }
  }

  /** No element occurs twice. */
  ghost predicate NoDup<T>(s: seq<T>)
  {
    forall i, j :: 0 <= i < j < |s| ==> s[i] != s[j]
  }

  /** Concatenation is associative. */
  lemma AppendAssoc<T>(a: seq<T>, b: seq<T>, c: seq<T>)
    ensures (a + b) + c == a + (b + c)
  {
  }

  /** The empty sequence is a unit of concatenation. */
  lemma EmptyIsUnit<T>(a: seq<T>)
    ensures [] + a == a && a + [] == a
  {
  }

  /** Appending an element not yet present keeps a sequence free of duplicates. */
  lemma NoDupAppend<T>(s: seq<T>, x: T)
    requires NoDup(s) && x !in s
    ensures NoDup(s + [x])
  {
  }

  /** Filtering a sequence without duplicates leaves none. */
  lemma {:induction false} FilterNoDup<T>(s: seq<T>, p: T -> bool)
    requires NoDup(s)
    ensures NoDup(Filter(s, p))
    decreases |s|
  {
    if |s| > 0 {
      var s', x := s[..|s| - 1], s[|s| - 1];
      assert s == s' + [x];
      FilterNoDup(s', p);
      if p(x) {
        var r := Filter(s', p);
        assert x !in s';
        assert x !in r;
        NoDupAppend(r, x);
      }
    }
  }

  /** Two per-element functions that agree on every element give the same sum. */
  lemma {:induction false} SumByAgree<T>(s: seq<T>, f: T -> int, g: T -> int)
    requires forall i :: 0 <= i < |s| ==> f(s[i]) == g(s[i])
    ensures SumBy(s, f) == SumBy(s, g)
    decreases |s|
  {
    if |s| > 0 {
      SumByAgree(s[..|s| - 1], f, g);
    }
  }

  /** Sums over two sequences of equal length agree when their elements match up pairwise. */
  lemma {:induction false} SumByPairwise<T, U>(a: seq<T>, f: T -> int, b: seq<U>, g: U -> int)
    requires |a| == |b|
    requires forall i :: 0 <= i < |a| ==> f(a[i]) == g(b[i])
    ensures SumBy(a, f) == SumBy(b, g)
    decreases |a|
  {
    if |a| > 0 {
      SumByPairwise(a[..|a| - 1], f, b[..|b| - 1], g);
    }
  }

  /** Summing a pointwise sum is summing each part. */
  lemma {:induction false} SumByAdd<T>(s: seq<T>, f: T -> int, g: T -> int, h: T -> int)
    requires forall i :: 0 <= i < |s| ==> h(s[i]) == f(s[i]) + g(s[i])
    ensures SumBy(s, h) == SumBy(s, f) + SumBy(s, g)
    decreases |s|
  {
    if |s| > 0 {
      SumByAdd(s[..|s| - 1], f, g, h);
    }
  }

  /** A pointwise smaller function has a smaller sum. */
  lemma {:induction false} SumByMonotone<T>(s: seq<T>, f: T -> int, g: T -> int)
    requires forall i :: 0 <= i < |s| ==> f(s[i]) <= g(s[i])
    ensures SumBy(s, f) <= SumBy(s, g)
    decreases |s|
  {
    if |s| > 0 {
      SumByMonotone(s[..|s| - 1], f, g);
    }
  }

  /** Summing over the elements that pass is summing a figure that is zero on the others. */
  lemma {:induction false} SumByFilter<T>(s: seq<T>, p: T -> bool, f: T -> int, g: T -> int)
    requires forall i :: 0 <= i < |s| ==> g(s[i]) == if p(s[i]) then f(s[i]) else 0
    ensures SumBy(Filter(s, p), f) == SumBy(s, g)
    decreases |s|
  {
    if |s| > 0 {
      var s', x := s[..|s| - 1], s[|s| - 1];
      assert s == s' + [x];
      SumByFilter(s', p, f, g);
      if p(x) {
        SumByAppend(Filter(s', p), x, f);
      }
    }
  }

  /** The elements that pass and the elements that fail together make up the whole sequence. */
  lemma {:induction false} FilterSplit<T>(s: seq<T>, p: T -> bool, q: T -> bool)
    requires forall i :: 0 <= i < |s| ==> q(s[i]) == !p(s[i])
    ensures multiset(Filter(s, p)) + multiset(Filter(s, q)) == multiset(s)
    decreases |s|
  {
    if |s| > 0 {
      var s', x := s[..|s| - 1], s[|s| - 1];
      assert s == s' + [x];
      FilterSplit(s', p, q);
    }
  }

  /** Maps f over s, failing as a whole when f fails on any element. */
  function Traverse<T, U>(s: seq<T>, f: T -> Option<U>): (r: Option<seq<U>>)
    ensures r.Some? <==> forall i :: 0 <= i < |s| ==> f(s[i]).Some?
    ensures r.Some? ==> |r.value| == |s| && forall i :: 0 <= i < |s| ==> f(s[i]) == Some(r.value[i])
  {
    if |s| == 0 then Some([])
    else
      var n := |s| - 1;
      var front := Traverse(s[..n], f);
      match front
      case None => None
      case Some(us) =>
        match f(s[n])
        case None => None
        case Some(u) => Some(us + [u])
  }
}
