/**
 Comparators and what it means for a sequence to be sorted by one.
 */
module Ordering {

  type Comparator<!T> = (T, T) -> int

  /** Comparators are assumed to be total preorders: negative, zero or positive consistently
      with the order of the arguments, and transitive. */
  ghost predicate TotalPreorder<T(!new)>(cmp: Comparator<T>) {
    && (forall a, b :: cmp(a, b) <= 0 || cmp(b, a) <= 0)
    && (forall a, b :: cmp(a, b) > 0 <==> cmp(b, a) < 0)
    && (forall a, b, c :: cmp(a, b) <= 0 && cmp(b, c) <= 0 ==> cmp(a, c) <= 0)
  }

  ghost predicate Sorted<T>(s: seq<T>, cmp: Comparator<T>) {
    forall i, j :: 0 <= i < j < |s| ==> cmp(s[i], s[j]) <= 0
  }

  ghost predicate Minimum<T>(x: T, s: seq<T>, cmp: Comparator<T>) {
    x in s && forall i :: 0 <= i < |s| ==> cmp(x, s[i]) <= 0
  }

  /** Elements of s that compare below x, at most, as indices 0..below. */
  function CountBelow<T>(s: seq<T>, x: T, cmp: Comparator<T>): nat {
    if s == [] then 0 else CountBelow(s[..|s| - 1], x, cmp) + if cmp(s[|s| - 1], x) < 0 then 1 else 0
  }

  lemma {:induction false} CountBelowSorted<T(!new)>(s: seq<T>, x: T, cmp: Comparator<T>)
    requires TotalPreorder(cmp) && Sorted(s, cmp)
    ensures CountBelow(s, x, cmp) <= |s|
    ensures forall i :: 0 <= i < |s| ==> (cmp(s[i], x) < 0 <==> i < CountBelow(s, x, cmp))
  {
    if s != [] {
      var n := |s| - 1;
      CountBelowSorted(s[..n], x, cmp);
      if cmp(s[n], x) < 0 {
        forall i | 0 <= i < n
          ensures cmp(s[i], x) < 0
        {
          assert cmp(s[i], s[n]) <= 0;
        }
      }
    }
  }

  lemma {:induction false} CountBelowConcat<T>(a: seq<T>, b: seq<T>, x: T, cmp: Comparator<T>)
    ensures CountBelow(a + b, x, cmp) == CountBelow(a, x, cmp) + CountBelow(b, x, cmp)
  {
    if b == [] {
      assert a + b == a;
    } else {
      var n := |b| - 1;
      assert (a + b)[..|a + b| - 1] == a + b[..n];
      CountBelowConcat(a, b[..n], x, cmp);
    }
  }

  lemma TakeOut<T>(b: seq<T>, k: nat)
    requires k < |b|
    ensures multiset(b[..k] + b[k + 1..]) == multiset(b) - multiset{b[k]}
  {
    assert b == b[..k] + ([b[k]] + b[k + 1..]);
  }

  lemma CountBelowOut<T>(b: seq<T>, k: nat, x: T, cmp: Comparator<T>)
    requires k < |b|
    ensures CountBelow(b, x, cmp) == CountBelow(b[..k] + b[k + 1..], x, cmp) + if cmp(b[k], x) < 0 then 1 else 0
  {
    assert b == b[..k] + ([b[k]] + b[k + 1..]);
    CountBelowConcat(b[..k], [b[k]] + b[k + 1..], x, cmp);
    CountBelowConcat([b[k]], b[k + 1..], x, cmp);
    CountBelowConcat(b[..k], b[k + 1..], x, cmp);
    assert [b[k]][..0] == [];
  }

  lemma LastOut<T>(a: seq<T>)
    requires a != []
    ensures multiset(a[..|a| - 1]) == multiset(a) - multiset{a[|a| - 1]}
  {
    assert a == a[..|a| - 1] + [a[|a| - 1]];
  }

  /** The count depends on the elements only. */
  lemma {:induction false} CountBelowMultiset<T>(a: seq<T>, b: seq<T>, x: T, cmp: Comparator<T>)
    requires multiset(a) == multiset(b)
    ensures CountBelow(a, x, cmp) == CountBelow(b, x, cmp)
  {
    if a == [] {
      assert |b| == |multiset(b)| == 0;
      assert b == [];
    } else {
      var n := |a| - 1;
      assert a[n] in multiset(b);
      var k :| 0 <= k < |b| && b[k] == a[n];
      LastOut(a);
      TakeOut(b, k);
      CountBelowOut(b, k, x, cmp);
      var rest := b[..k] + b[k + 1..];
      assert CountBelow(a[..n], x, cmp) == CountBelow(rest, x, cmp) by {
        CountBelowMultiset(a[..n], rest, x, cmp);
      }
    }
  }

  /** Two sorted arrangements of the same elements agree position by position, up to the
      comparator. */
  lemma SortedAgree<T(!new)>(a: seq<T>, b: seq<T>, cmp: Comparator<T>)
    requires TotalPreorder(cmp) && Sorted(a, cmp) && Sorted(b, cmp)
    requires multiset(a) == multiset(b)
    ensures |a| == |b| && forall i :: 0 <= i < |a| ==> cmp(a[i], b[i]) == 0
  {
    assert |multiset(a)| == |a| && |multiset(b)| == |b|;
    forall i | 0 <= i < |a|
      ensures cmp(a[i], b[i]) == 0
    {
      SortedBelow(a, b, cmp, i);
      SortedBelow(b, a, cmp, i);
    }
  }

  lemma SortedBelow<T(!new)>(a: seq<T>, b: seq<T>, cmp: Comparator<T>, i: nat)
    requires TotalPreorder(cmp) && Sorted(a, cmp) && Sorted(b, cmp)
    requires multiset(a) == multiset(b) && i < |a| == |b|
    ensures cmp(a[i], b[i]) >= 0
  {
    CountBelowMultiset(a, b, b[i], cmp);
    CountBelowSorted(a, b[i], cmp);
    CountBelowSorted(b, b[i], cmp);
    assert cmp(b[i], b[i]) == 0;
  }
}
