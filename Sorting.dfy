/**
 * A stable insertion sort by a comparator, standing for JavaScript's
 * `Array.prototype.sort` (stable since ES2019) and for the database's `order by`.
 */
module Sorting {
  import opened Seqs

  /** `le` is a total preorder: any two elements compare, and comparison chains. */
  ghost predicate TotalPreorder<T(!new)>(le: (T, T) -> bool)
  {
    && (forall a, b :: le(a, b) || le(b, a))
    && (forall a, b, c :: le(a, b) && le(b, c) ==> le(a, c))
  }

  /** Compares two elements by a key drawn from each: `(a, b) => le(key(a), key(b))`. */
  function ByKey<T, K>(le: (K, K) -> bool, key: T -> K): (T, T) -> bool
  {
    (a: T, b: T) => le(key(a), key(b))
  }

  /** Comparing by a key is a total preorder whenever comparing the keys is. */
  lemma ByKeyIsTotalPreorder<T(!new), K(!new)>(le: (K, K) -> bool, key: T -> K)
    requires TotalPreorder(le)
    ensures TotalPreorder(ByKey(le, key))
  {
    var cmp := ByKey(le, key);
    forall a: T, b: T ensures cmp(a, b) || cmp(b, a) {
      assert le(key(a), key(b)) || le(key(b), key(a));
    }
    forall a: T, b: T, c: T | cmp(a, b) && cmp(b, c) ensures cmp(a, c) {
      assert le(key(a), key(b)) && le(key(b), key(c));
    }
  }

  /** The elements tied with k: each is at most k and k is at most it. */
  function TiedWith<T>(le: (T, T) -> bool, k: T): T -> bool
  {
    (x: T) => le(x, k) && le(k, x)
  }

  /** An element tied with k is at most every element tied with k. */
  lemma TiedAreLeast<T(!new)>(le: (T, T) -> bool, k: T, x: T)
    requires TotalPreorder(le)
    ensures TiedWith(le, k)(x) ==> forall y :: TiedWith(le, k)(y) ==> le(x, y)
  {
    forall y | TiedWith(le, k)(x) && TiedWith(le, k)(y) ensures le(x, y) {
      assert le(x, k) && le(k, y);
    }
  }

  /** Inserting past the head keeps the head in front. */
  lemma InsertPastHead<T>(x: T, s: seq<T>, le: (T, T) -> bool)
    requires |s| > 0 && !le(x, s[0])
    ensures Insert(x, s, le) == [s[0]] + Insert(x, s[1..], le)
  {
  }

  /** At most one of two prefixes is non-empty, so the two can be swapped. */
  lemma SwapPrefixes<T>(a: seq<T>, b: seq<T>, hx: seq<T>, h0: seq<T>, rest: seq<T>)
    requires a == h0 + (hx + rest) && b == h0 + rest && (h0 == [] || hx == [])
    ensures a == hx + b
  {
  }

  /** Inserting x puts it ahead of every element it ties with. */
  lemma {:induction false} InsertKeepsTies<T(!new)>(x: T, s: seq<T>, le: (T, T) -> bool, k: T)
    requires TiedWith(le, k)(x) ==> forall y :: TiedWith(le, k)(y) ==> le(x, y)
    ensures Filter(Insert(x, s, le), TiedWith(le, k)) ==
      (if TiedWith(le, k)(x) then [x] else []) + Filter(s, TiedWith(le, k))
    decreases |s|
  {
    var tied := TiedWith(le, k);
    if |s| == 0 || le(x, s[0]) {
      assert Insert(x, s, le) == [x] + s;
      FilterCons(x, s, tied);
    } else {
      var rest := Insert(x, s[1..], le);
      InsertPastHead(x, s, le);
      InsertKeepsTies(x, s[1..], le, k);
      FilterCons(s[0], rest, tied);
      FilterHead(s, tied);
      if tied(x) && tied(s[0]) {
        assert false;
      }
      SwapPrefixes(Filter([s[0]] + rest, tied), Filter(s, tied), if tied(x) then [x] else [],
                   if tied(s[0]) then [s[0]] else [], Filter(s[1..], tied));
    }
  }

  /**
   * The sort is stable: the elements tied with any k come out in the order they
   * went in.
   */
  lemma {:induction false} SortIsStable<T(!new)>(s: seq<T>, le: (T, T) -> bool, k: T)
    requires TotalPreorder(le)
    ensures Filter(Sort(s, le), TiedWith(le, k)) == Filter(s, TiedWith(le, k))
    decreases |s|
  {
    if |s| > 0 {
      SortIsStable(s[1..], le, k);
      TiedAreLeast(le, k, s[0]);
      InsertKeepsTies(s[0], Sort(s[1..], le), le, k);
      FilterHead(s, TiedWith(le, k));
    }
  }

  ghost predicate Sorted<T>(s: seq<T>, le: (T, T) -> bool)
  {
    forall i, j :: 0 <= i < j < |s| ==> le(s[i], s[j])
  }

  /** Inserts x before the first element it is not after, so equal elements keep their order. */
  function Insert<T>(x: T, s: seq<T>, le: (T, T) -> bool): (r: seq<T>)
    ensures |r| == |s| + 1
    ensures multiset(r) == multiset(s) + multiset{x}
  {
    if |s| == 0 || le(x, s[0]) then [x] + s
    else
      var rest := Insert(x, s[1..], le);
      assert s == [s[0]] + s[1..];
      [s[0]] + rest
  }

  function Sort<T>(s: seq<T>, le: (T, T) -> bool): (r: seq<T>)
    ensures |r| == |s|
    ensures multiset(r) == multiset(s)
  {
    if |s| == 0 then []
    else
      assert s == [s[0]] + s[1..];
      Insert(s[0], Sort(s[1..], le), le)
  }

  lemma {:induction false} InsertSorted<T(!new)>(x: T, s: seq<T>, le: (T, T) -> bool)
    requires TotalPreorder(le)
    requires Sorted(s, le)
    ensures Sorted(Insert(x, s, le), le)
    decreases |s|
  {
    if |s| == 0 || le(x, s[0]) {
      var r := [x] + s;
      forall i, j | 0 <= i < j < |r| ensures le(r[i], r[j]) {
        if i == 0 && j > 1 {
          assert le(x, s[0]) && le(s[0], s[j - 1]);
        }
      }
    } else {
      InsertSorted(x, s[1..], le);
      var rest := Insert(x, s[1..], le);
      var r := [s[0]] + rest;
      assert le(s[0], x);
      forall k | 0 <= k < |rest| ensures le(s[0], rest[k]) {
        assert rest[k] in multiset(rest);
        assert rest[k] in multiset(s[1..]) + multiset{x};
        if rest[k] != x {
          assert rest[k] in s[1..];
          var m :| 0 <= m < |s[1..]| && s[1..][m] == rest[k];
          assert s[m + 1] == rest[k];
        }
      }
      forall i, j | 0 <= i < j < |r| ensures le(r[i], r[j]) {
        if i == 0 {
          assert r[j] == rest[j - 1];
        } else {
          assert r[i] == rest[i - 1] && r[j] == rest[j - 1];
        }
      }
    }
  }

  /** The sort orders its output when the comparator is a total preorder. */
  lemma {:induction false} SortSorted<T(!new)>(s: seq<T>, le: (T, T) -> bool)
    requires TotalPreorder(le)
    ensures Sorted(Sort(s, le), le)
    decreases |s|
  {
    if |s| > 0 {
      SortSorted(s[1..], le);
      InsertSorted(s[0], Sort(s[1..], le), le);
    }
  }

  lemma {:induction false} NoDupCount<T>(s: seq<T>, x: T)
    requires NoDup(s)
    ensures multiset(s)[x] <= 1
    decreases |s|
  {
    if |s| > 0 {
      var s' := s[..|s| - 1];
      assert s == s' + [s[|s| - 1]];
      assert NoDup(s');
      NoDupCount(s', x);
      if x == s[|s| - 1] {
        assert x !in s';
      }
    }
  }

  /** Reordering a sequence without duplicates cannot create duplicates. */
  lemma NoDupPermutation<T>(a: seq<T>, b: seq<T>)
    requires multiset(a) == multiset(b)
    requires NoDup(a)
    ensures NoDup(b)
  {
    forall i, j | 0 <= i < j < |b| ensures b[i] != b[j] {
      if b[i] == b[j] {
        var x := b[i];
        assert b == b[..j] + [x] + b[j + 1..];
        assert x in b[..j];
        assert multiset(b) == multiset(b[..j]) + multiset{x} + multiset(b[j + 1..]);
        assert multiset(b)[x] >= 2;
        NoDupCount(a, x);
        assert false;
      }
    }
  }
}
