/**
 * The reports' top-five lists: `sort((a, b) => key(b) - key(a)).slice(0, 5)`,
 * a stable sort by descending key followed by the first five.
 */
module Ranking {
  import opened Seqs
  import opened Sorting

  const TopCount := 5

  /** The comparator `key(b) - key(a)` as an ordering: a may come first when its key is not smaller. */
  function ByKeyDesc<T>(key: T -> int): (T, T) -> bool
  {
    (a: T, b: T) => key(a) >= key(b)
  }

  lemma ByKeyDescIsTotalPreorder<T(!new)>(key: T -> int)
    ensures TotalPreorder(ByKeyDesc(key))
  {
  }

  /** `slice(0, n)`: the first n elements, or all of them when there are fewer. */
  function Take<T>(s: seq<T>, n: nat): (r: seq<T>)
    ensures |r| == Min(|s|, n)
    ensures r <= s
  {
    if |s| <= n then s else s[..n]
  }

  /** The five elements with the largest keys, largest first, ties in their original order. */
  function TopFive<T>(s: seq<T>, key: T -> int): (r: seq<T>)
    ensures |r| == Min(|s|, TopCount)
    ensures multiset(r) <= multiset(s)
  {
    var sorted := Sort(s, ByKeyDesc(key));
    var r := Take(sorted, TopCount);
    assert sorted == r + sorted[|r|..];
    assert multiset(sorted) == multiset(r) + multiset(sorted[|r|..]);
    r
  }

  /**
   * The top five are ordered by non-increasing key, and every element left out
   * has a key no larger than any kept element's.
   */
  lemma {:induction false} TopFiveRanks<T(!new)>(s: seq<T>, key: T -> int)
    ensures var r := TopFive(s, key);
      forall i, j :: 0 <= i < j < |r| ==> key(r[i]) >= key(r[j])
    ensures var r := TopFive(s, key);
      forall x :: x in s && x !in r ==> forall k :: 0 <= k < |r| ==> key(x) <= key(r[k])
  {
    var le := ByKeyDesc(key);
    ByKeyDescIsTotalPreorder(key);
    var sorted := Sort(s, le);
    SortSorted(s, le);
    var r := TopFive(s, key);
    assert r == sorted[..|r|];
    forall i, j | 0 <= i < j < |r| ensures key(r[i]) >= key(r[j]) {
      assert le(sorted[i], sorted[j]);
    }
    forall x | x in s && x !in r ensures forall k :: 0 <= k < |r| ==> key(x) <= key(r[k]) {
      assert x in multiset(sorted);
      var p :| 0 <= p < |sorted| && sorted[p] == x;
      assert forall k :: 0 <= k < |r| ==> r[k] == sorted[k];
      assert p >= |r|;
      forall k | 0 <= k < |r| ensures key(x) <= key(r[k]) {
        assert le(sorted[k], sorted[p]);
      }
    }
  }

  /** Elements drawn from a sequence whose names are distinct have distinct names. */
  lemma DistinctNamesSubset<T(!new)>(a: seq<T>, b: seq<T>, name: T -> string)
    requires forall i, j :: 0 <= i < j < |a| ==> name(a[i]) != name(a[j])
    requires multiset(b) <= multiset(a)
    ensures forall i, j :: 0 <= i < j < |b| ==> name(b[i]) != name(b[j])
  {
    assert NoDup(a) by {
      forall i, j | 0 <= i < j < |a| ensures a[i] != a[j] {
        assert name(a[i]) != name(a[j]);
      }
    }
    forall i, j | 0 <= i < j < |b| ensures name(b[i]) != name(b[j]) {
      assert b[i] in multiset(a) && b[j] in multiset(a);
      var p :| 0 <= p < |a| && a[p] == b[i];
      var q :| 0 <= q < |a| && a[q] == b[j];
      if name(b[i]) == name(b[j]) {
        assert p == q;
        var x := b[i];
        assert b == b[..j] + [x] + b[j + 1..];
        assert x in b[..j];
        assert multiset(b) == multiset(b[..j]) + multiset{x} + multiset(b[j + 1..]);
        assert multiset(b)[x] >= 2;
        NoDupCount(a, x);
        assert false;
      }
    }
  }
}
