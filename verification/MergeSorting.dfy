/**
 Merge sort as a function on sequences of (node, element) pairs: what linkedList.Sort
 computes, and why the result is sorted, stable and a rearrangement of the same nodes.
 */
module MergeSorting {
  import opened Arithmetic
  import opened Ordering

  /** A node, or anything else that carries an element, with its element. */
  type Item<N, T> = (N, T)

  function Merge<N, T>(a: seq<Item<N, T>>, b: seq<Item<N, T>>, cmp: Comparator<T>): seq<Item<N, T>>
    decreases |a| + |b|
  {
    if a == [] then b
    else if b == [] then a
    else if cmp(a[0].1, b[0].1) <= 0 then [a[0]] + Merge(a[1..], b, cmp)
    else [b[0]] + Merge(a, b[1..], cmp)
  }

  /** Where mergeSort splits: the slow pointer stops at the end of the first half. */
  function Middle(n: nat): (m: nat)
    ensures n >= 2 ==> 0 < m < n && 0 < n - m < n
  {
    (n + 1) / 2
  }

  /** How often a chain of n nodes is halved: the logarithm, rounded up. */
  function Levels(n: nat): nat {
    if n <= 1 then 0 else 1 + Levels(Middle(n))
  }

  lemma {:induction false} LevelsBound(n: nat)
    requires n >= 2
    ensures Pow2(Levels(n) - 1) < n <= Pow2(Levels(n))
  {
    if n > 2 {
      LevelsBound(Middle(n));
    }
  }

  lemma {:induction false} LevelsMonotone(k: nat, n: nat)
    requires k <= n
    ensures Levels(k) <= Levels(n)
    decreases n
  {
    if n > 1 {
      LevelsMonotone(Middle(k), Middle(n));
    }
  }

  /** Comparator calls that are enough for n nodes: those for the halves, and for merging them
      one less than there are nodes. */
  function SortCalls(n: nat): nat {
    if n <= 1 then 0 else SortCalls(Middle(n)) + SortCalls(n - Middle(n)) + n - 1
  }

  /** Two parts a and b, halved k more times at most, cost a + b more in the next level. */
  lemma NextLevel(a: nat, b: nat, j: nat, k: nat)
    requires j <= k
    ensures a * k + b * j + a + b <= (a + b) * (1 + k)
  {
    assert b * k == b * j + b * (k - j);
  }

  lemma {:induction false} SortCallsBound(n: nat)
    ensures SortCalls(n) <= n * Levels(n)
  {
    if n > 1 {
      var m := Middle(n);
      SortCallsBound(m);
      SortCallsBound(n - m);
      LevelsMonotone(n - m, m);
      NextLevel(m, n - m, Levels(n - m), Levels(m));
    }
  }

  function MergeSort<N, T>(s: seq<Item<N, T>>, cmp: Comparator<T>): seq<Item<N, T>>
    decreases |s|
  {
    if |s| <= 1 then s
    else
      var m := Middle(|s|);
      Merge(MergeSort(s[..m], cmp), MergeSort(s[m..], cmp), cmp)
  }

  ghost predicate SortedItems<N, T>(s: seq<Item<N, T>>, cmp: Comparator<T>) {
    forall i, j :: 0 <= i < j < |s| ==> cmp(s[i].1, s[j].1) <= 0
  }

  /** The items that compare equal to x, among the first n and among all, in order. */
  function EqualsIn<N, T>(s: seq<Item<N, T>>, n: nat, x: T, cmp: Comparator<T>): seq<Item<N, T>>
    requires n <= |s|
  {
    if n == 0 then [] else EqualsIn(s, n - 1, x, cmp) + if cmp(s[n - 1].1, x) == 0 then [s[n - 1]] else []
  }

  function Equals<N, T>(s: seq<Item<N, T>>, x: T, cmp: Comparator<T>): seq<Item<N, T>> {
    EqualsIn(s, |s|, x, cmp)
  }

  lemma {:induction false} EqualsPrefix<N, T>(s: seq<Item<N, T>>, t: seq<Item<N, T>>, n: nat, x: T, cmp: Comparator<T>)
    requires n <= |s| && n <= |t| && forall i :: 0 <= i < n ==> s[i] == t[i]
    ensures EqualsIn(s, n, x, cmp) == EqualsIn(t, n, x, cmp)
  {
    if n > 0 {
      EqualsPrefix(s, t, n - 1, x, cmp);
    }
  }

  lemma {:induction false} EqualsConcatIn<N, T>(a: seq<Item<N, T>>, b: seq<Item<N, T>>, m: nat, x: T,
                                                cmp: Comparator<T>)
    requires m <= |b|
    ensures EqualsIn(a + b, |a| + m, x, cmp) == Equals(a, x, cmp) + EqualsIn(b, m, x, cmp)
  {
    if m == 0 {
      EqualsPrefix(a + b, a, |a|, x, cmp);
    } else {
      EqualsConcatIn(a, b, m - 1, x, cmp);
      assert (a + b)[|a| + m - 1] == b[m - 1];
    }
  }

  lemma EqualsConcat<N, T>(a: seq<Item<N, T>>, b: seq<Item<N, T>>, x: T, cmp: Comparator<T>)
    ensures Equals(a + b, x, cmp) == Equals(a, x, cmp) + Equals(b, x, cmp)
  {
    EqualsConcatIn(a, b, |b|, x, cmp);
  }

  /** What a first item adds. */
  function EqualsOne<N, T>(y: Item<N, T>, x: T, cmp: Comparator<T>): seq<Item<N, T>> {
    if cmp(y.1, x) == 0 then [y] else []
  }

  lemma EqualsCons<N, T>(y: Item<N, T>, s: seq<Item<N, T>>, x: T, cmp: Comparator<T>)
    ensures Equals([y] + s, x, cmp) == EqualsOne(y, x, cmp) + Equals(s, x, cmp)
  {
    EqualsConcat([y], s, x, cmp);
    assert EqualsIn([y], 0, x, cmp) == [];
  }

  lemma {:induction false} EqualsNone<N, T>(s: seq<Item<N, T>>, n: nat, x: T, cmp: Comparator<T>)
    requires n <= |s| && forall i :: 0 <= i < |s| ==> cmp(s[i].1, x) != 0
    ensures EqualsIn(s, n, x, cmp) == []
  {
    if n > 0 {
      EqualsNone(s, n - 1, x, cmp);
    }
  }

  lemma {:induction false} MergeMultiset<N, T>(a: seq<Item<N, T>>, b: seq<Item<N, T>>, cmp: Comparator<T>)
    ensures multiset(Merge(a, b, cmp)) == multiset(a) + multiset(b)
    ensures |Merge(a, b, cmp)| == |a| + |b|
    decreases |a| + |b|
  {
    if a != [] && b != [] {
      if cmp(a[0].1, b[0].1) <= 0 {
        MergeMultiset(a[1..], b, cmp);
        assert a == [a[0]] + a[1..];
      } else {
        MergeMultiset(a, b[1..], cmp);
        assert b == [b[0]] + b[1..];
      }
    }
  }

  /** What is below both inputs is below the merge. */
  lemma {:induction false} MergeAbove<N, T>(x: T, a: seq<Item<N, T>>, b: seq<Item<N, T>>, cmp: Comparator<T>)
    requires forall i :: 0 <= i < |a| ==> cmp(x, a[i].1) <= 0
    requires forall i :: 0 <= i < |b| ==> cmp(x, b[i].1) <= 0
    ensures forall i :: 0 <= i < |Merge(a, b, cmp)| ==> cmp(x, Merge(a, b, cmp)[i].1) <= 0
    decreases |a| + |b|
  {
    if a != [] && b != [] {
      if cmp(a[0].1, b[0].1) <= 0 {
        MergeAbove(x, a[1..], b, cmp);
      } else {
        MergeAbove(x, a, b[1..], cmp);
      }
    }
  }

  lemma {:induction false} MergeSorted<N, T(!new)>(a: seq<Item<N, T>>, b: seq<Item<N, T>>, cmp: Comparator<T>)
    requires TotalPreorder(cmp) && SortedItems(a, cmp) && SortedItems(b, cmp)
    ensures SortedItems(Merge(a, b, cmp), cmp)
    decreases |a| + |b|
  {
    if a != [] && b != [] {
      if cmp(a[0].1, b[0].1) <= 0 {
        MergeSorted(a[1..], b, cmp);
        MergeAbove(a[0].1, a[1..], b, cmp);
      } else {
        MergeSorted(a, b[1..], cmp);
        assert cmp(b[0].1, a[0].1) <= 0;
        MergeAbove(b[0].1, a, b[1..], cmp);
      }
    }
  }

  /** Taking y from the left input: it stays before everything else. */
  lemma StableLeft<N, T>(y: Item<N, T>, merged: seq<Item<N, T>>, r: seq<Item<N, T>>, b: seq<Item<N, T>>, x: T,
                         cmp: Comparator<T>)
    requires Equals(merged, x, cmp) == Equals(r, x, cmp) + Equals(b, x, cmp)
    ensures Equals([y] + merged, x, cmp) == Equals([y] + r, x, cmp) + Equals(b, x, cmp)
  {
    EqualsCons(y, merged, x, cmp);
    EqualsCons(y, r, x, cmp);
  }

  /** Taking y from the right input: nothing on the left is equal to what y is equal to. */
  lemma StableRight<N, T>(y: Item<N, T>, merged: seq<Item<N, T>>, a: seq<Item<N, T>>, r: seq<Item<N, T>>, x: T,
                          cmp: Comparator<T>)
    requires Equals(merged, x, cmp) == Equals(a, x, cmp) + Equals(r, x, cmp)
    requires cmp(y.1, x) == 0 ==> Equals(a, x, cmp) == []
    ensures Equals([y] + merged, x, cmp) == Equals(a, x, cmp) + Equals([y] + r, x, cmp)
  {
    EqualsCons(y, merged, x, cmp);
    EqualsCons(y, r, x, cmp);
  }

  lemma {:induction false} MergeStable<N, T(!new)>(a: seq<Item<N, T>>, b: seq<Item<N, T>>, x: T, cmp: Comparator<T>)
    requires TotalPreorder(cmp) && SortedItems(a, cmp) && SortedItems(b, cmp)
    ensures Equals(Merge(a, b, cmp), x, cmp) == Equals(a, x, cmp) + Equals(b, x, cmp)
    decreases |a| + |b|
  {
    if a == [] || b == [] {
      return;
    }
    if cmp(a[0].1, b[0].1) <= 0 {
      var y, r := a[0], a[1..];
      assert a == [y] + r;
      MergeStable(r, b, x, cmp);
      StableLeft(y, Merge(r, b, cmp), r, b, x, cmp);
    } else {
      var y, r := b[0], b[1..];
      assert b == [y] + r;
      MergeStable(a, r, x, cmp);
      if cmp(y.1, x) == 0 {
        NoneEqual(a, y.1, x, cmp);
      }
      StableRight(y, Merge(a, r, cmp), a, r, x, cmp);
    }
  }

  /** Nothing in a is equal to x if everything is above something equal to x. */
  lemma NoneEqual<N, T(!new)>(a: seq<Item<N, T>>, y: T, x: T, cmp: Comparator<T>)
    requires TotalPreorder(cmp) && SortedItems(a, cmp) && a != []
    requires cmp(a[0].1, y) > 0 && cmp(y, x) == 0
    ensures Equals(a, x, cmp) == []
  {
    forall i | 0 <= i < |a|
      ensures cmp(a[i].1, x) != 0
    {
      AboveNotEqual(a, i, y, x, cmp);
    }
    EqualsNone(a, |a|, x, cmp);
  }

  lemma AboveNotEqual<N, T(!new)>(a: seq<Item<N, T>>, i: nat, y: T, x: T, cmp: Comparator<T>)
    requires TotalPreorder(cmp) && SortedItems(a, cmp) && i < |a|
    requires cmp(a[0].1, y) > 0 && cmp(y, x) == 0
    ensures cmp(a[i].1, x) != 0
  {
    assert i > 0 ==> cmp(a[0].1, a[i].1) <= 0;
    assert cmp(x, y) == 0;
  }

  lemma {:induction false} SortSorted<N, T(!new)>(s: seq<Item<N, T>>, cmp: Comparator<T>)
    requires TotalPreorder(cmp)
    ensures SortedItems(MergeSort(s, cmp), cmp)
    decreases |s|
  {
    if |s| > 1 {
      var m := Middle(|s|);
      SortSorted(s[..m], cmp);
      SortSorted(s[m..], cmp);
      MergeSorted(MergeSort(s[..m], cmp), MergeSort(s[m..], cmp), cmp);
    }
  }

  lemma SplitMultiset<X>(s: seq<X>, m: nat)
    requires m <= |s|
    ensures multiset(s[..m]) + multiset(s[m..]) == multiset(s)
  {
    assert s == s[..m] + s[m..];
  }

  lemma {:induction false} SortMultiset<N, T>(s: seq<Item<N, T>>, cmp: Comparator<T>)
    ensures multiset(MergeSort(s, cmp)) == multiset(s) && |MergeSort(s, cmp)| == |s|
    decreases |s|
  {
    if |s| > 1 {
      var m := Middle(|s|);
      SortMultiset(s[..m], cmp);
      SortMultiset(s[m..], cmp);
      MergeMultiset(MergeSort(s[..m], cmp), MergeSort(s[m..], cmp), cmp);
      SplitMultiset(s, m);
    }
  }

  /** Stability: items that compare equal keep their order. */
  lemma {:induction false} SortStable<N, T(!new)>(s: seq<Item<N, T>>, x: T, cmp: Comparator<T>)
    requires TotalPreorder(cmp)
    ensures Equals(MergeSort(s, cmp), x, cmp) == Equals(s, x, cmp)
    decreases |s|
  {
    if |s| > 1 {
      var m := Middle(|s|);
      var l, r := s[..m], s[m..];
      assert Equals(s, x, cmp) == Equals(l, x, cmp) + Equals(r, x, cmp) by {
        EqualsConcat(l, r, x, cmp);
        assert s == l + r;
      }
      SortStable(l, x, cmp);
      SortStable(r, x, cmp);
      SortSorted(l, cmp);
      SortSorted(r, cmp);
      MergeStable(MergeSort(l, cmp), MergeSort(r, cmp), x, cmp);
    }
  }
}
