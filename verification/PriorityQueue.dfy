/**
 The binary heap of priorityqueue.go, with a ghost count of comparator calls.
 */
module PriorityQueues {
  import opened Common
  import opened Ordering
  import opened HeapCost
  import opened Arithmetic

  function Parent(k: int): int {
    (k - 1) / 2
  }

  /** Element k is not before its parent. */
  ghost predicate Edge<T>(s: seq<T>, k: int, cmp: Comparator<T>)
    requires 0 < k < |s|
  {
    cmp(s[Parent(k)], s[k]) <= 0
  }

  /** Heap order for every parent from index lo on. */
  ghost predicate HeapFrom<T>(s: seq<T>, lo: int, cmp: Comparator<T>) {
    forall k {:trigger Edge(s, k, cmp)} :: 0 < k < |s| && lo <= Parent(k) ==> Edge(s, k, cmp)
  }

  function Swapped<T>(s: seq<T>, i: nat, j: nat): (r: seq<T>)
    requires i < |s| && j < |s|
    ensures multiset(r) == multiset(s)
  {
    s[i := s[j]][j := s[i]]
  }

  /** The root comes before everything. */
  lemma {:induction false} RootFirst<T(!new)>(s: seq<T>, k: nat, cmp: Comparator<T>)
    requires TotalPreorder(cmp) && HeapFrom(s, 0, cmp) && k < |s|
    ensures cmp(s[0], s[k]) <= 0
  {
    if k > 0 {
      assert Edge(s, k, cmp);
      RootFirst(s, Parent(k), cmp);
    }
  }

  lemma RootMinimum<T(!new)>(s: seq<T>, cmp: Comparator<T>)
    requires TotalPreorder(cmp) && HeapFrom(s, 0, cmp) && s != []
    ensures Minimum(s[0], s, cmp)
  {
    forall k | 0 <= k < |s|
      ensures cmp(s[0], s[k]) <= 0
    {
      RootFirst(s, k, cmp);
    }
  }

  /** Moving the last element to the root leaves heap order below the root. */
  lemma LastToRoot<T>(s: seq<T>, cmp: Comparator<T>)
    requires s != [] && HeapFrom(s, 0, cmp)
    ensures var t := s[0 := s[|s| - 1]][..|s| - 1];
            multiset(t) == multiset(s) - multiset{s[0]} && HeapFrom(t, 1, cmp)
  {
    var n := |s| - 1;
    var t := s[0 := s[n]][..n];
    assert s == s[..n] + [s[n]];
    if n > 0 {
      assert t == s[..n][0 := s[n]];
    }
    forall k {:trigger Edge(t, k, cmp)} | 0 < k < |t| && 1 <= Parent(k)
      ensures Edge(t, k, cmp)
    {
      assert Edge(s, k, cmp);
    }
  }

  /** What has been popped is in order and comes before what is left. */
  ghost predicate Popped<T>(out: seq<T>, rest: seq<T>, cmp: Comparator<T>) {
    Sorted(out, cmp) && forall i, j :: 0 <= i < |out| && 0 <= j < |rest| ==> cmp(out[i], rest[j]) <= 0
  }

  lemma PoppedNext<T>(out: seq<T>, before: seq<T>, x: T, rest: seq<T>, cmp: Comparator<T>)
    requires Popped(out, before, cmp) && Minimum(x, before, cmp)
    requires multiset(rest) == multiset(before) - multiset{x}
    ensures Popped(out + [x], rest, cmp)
    ensures multiset(out + [x]) + multiset(rest) == multiset(out) + multiset(before)
  {
    assert forall j :: 0 <= j < |rest| ==> rest[j] in multiset(rest);
    forall j | 0 <= j < |rest|
      ensures rest[j] in before
    {
      assert rest[j] in multiset(before);
    }
    assert x in multiset(before);
  }

  // ---------- Sifting down ----------

  /** Heap order from lo on except between j and its children, which the parent of j precedes. */
  ghost predicate Down<T>(s: seq<T>, lo: int, j: int, cmp: Comparator<T>) {
    && 0 <= lo <= j < |s|
    && (forall k {:trigger Edge(s, k, cmp)} :: 0 < k < |s| && lo <= Parent(k) != j ==> Edge(s, k, cmp))
    && (lo <= Parent(j) ==> forall k :: 0 < k < |s| && Parent(k) == j ==> cmp(s[Parent(j)], s[k]) <= 0)
  }

  lemma DownSwap<T(!new)>(s: seq<T>, lo: int, j: int, c: int, cmp: Comparator<T>)
    requires TotalPreorder(cmp) && Down(s, lo, j, cmp) && j < c < |s| && Parent(c) == j
    requires cmp(s[c], s[j]) < 0
    requires forall k :: 0 < k < |s| && Parent(k) == j ==> cmp(s[c], s[k]) <= 0
    ensures Down(Swapped(s, j, c), lo, c, cmp)
  {
    var t := Swapped(s, j, c);
    forall k {:trigger Edge(t, k, cmp)} | 0 < k < |t| && lo <= Parent(k) != c
      ensures Edge(t, k, cmp)
    {
      if Parent(k) != j && k != j {
        assert Edge(s, k, cmp);
      }
    }
    forall k | 0 < k < |t| && Parent(k) == c
      ensures cmp(t[Parent(c)], t[k]) <= 0
    {
      assert Edge(s, k, cmp);
    }
  }

  lemma DownDone<T>(s: seq<T>, lo: int, j: int, cmp: Comparator<T>)
    requires Down(s, lo, j, cmp)
    requires forall k :: 0 < k < |s| && Parent(k) == j ==> cmp(s[j], s[k]) <= 0
    ensures HeapFrom(s, lo, cmp)
  {
  }

  lemma DownStart<T>(s: seq<T>, i: int, cmp: Comparator<T>)
    requires 0 <= i < |s| && HeapFrom(s, i + 1, cmp)
    ensures Down(s, i, i, cmp)
  {
  }

  // ---------- Sifting up ----------

  /** Heap order except between j and its parent, which precedes the children of j. */
  ghost predicate Up<T>(s: seq<T>, j: int, cmp: Comparator<T>) {
    && 0 <= j < |s|
    && (forall k {:trigger Edge(s, k, cmp)} :: 0 < k < |s| && k != j ==> Edge(s, k, cmp))
    && (j > 0 ==> forall k :: 0 < k < |s| && Parent(k) == j ==> cmp(s[Parent(j)], s[k]) <= 0)
  }

  /** An element appended to a heap may be out of order with its parent only. */
  lemma UpStart<T>(s: seq<T>, x: T, cmp: Comparator<T>)
    requires HeapFrom(s, 0, cmp)
    ensures Up(s + [x], |s|, cmp)
  {
    var t := s + [x];
    forall k {:trigger Edge(t, k, cmp)} | 0 < k < |t| && k != |s|
      ensures Edge(t, k, cmp)
    {
      assert Edge(s, k, cmp);
    }
  }

  lemma UpSwap<T(!new)>(s: seq<T>, j: int, cmp: Comparator<T>)
    requires TotalPreorder(cmp) && Up(s, j, cmp) && j > 0 && cmp(s[j], s[Parent(j)]) < 0
    ensures Up(Swapped(s, j, Parent(j)), Parent(j), cmp)
  {
    var p := Parent(j);
    var t := Swapped(s, j, p);
    forall k {:trigger Edge(t, k, cmp)} | 0 < k < |t| && k != p
      ensures Edge(t, k, cmp)
    {
      if k != j {
        assert Edge(s, k, cmp);
      }
    }
    if p > 0 {
      assert Edge(s, p, cmp);
      forall k | 0 < k < |t| && Parent(k) == p
        ensures cmp(t[Parent(p)], t[k]) <= 0
      {
        if k != j {
          assert Edge(s, k, cmp);
        }
      }
    }
  }

  class PriorityQueue<T(!new)> {
    var data: seq<T>
    const cmp: Comparator<T>
    ghost var calls: nat

    ghost predicate Valid()
      reads this`data
    {
      TotalPreorder(cmp) && HeapFrom(data, 0, cmp)
    }

    method Compare(x: T, y: T) returns (c: int)
      modifies this`calls
      ensures c == cmp(x, y) && calls == old(calls) + 1
    {
      calls := calls + 1;
      c := cmp(x, y);
    }

    /** One round of siftUp: nothing to do, or the element moves to its parent's place. */
    method Raise(i: nat) returns (done: bool)
      requires TotalPreorder(cmp) && Up(data, i, cmp) && i > 0
      modifies this`data, this`calls
      ensures calls == old(calls) + 1 && multiset(data) == old(multiset(data)) && |data| == old(|data|)
      ensures if done then data == old(data) && HeapFrom(data, 0, cmp) else Up(data, Parent(i), cmp)
    {
      var parent := (i - 1) / 2;
      var c := Compare(data[i], data[parent]);
      if c >= 0 {
        assert Edge(data, i, cmp);
        return true;
      }
      UpSwap(data, i, cmp);
      data := Swapped(data, i, parent);
      return false;
    }

    method SiftUp(start: nat)
      requires TotalPreorder(cmp) && Up(data, start, cmp)
      modifies this`data, this`calls
      ensures Valid() && multiset(data) == old(multiset(data)) && |data| == old(|data|)
      ensures old(calls) <= calls <= old(calls) + Log2(start + 1)
    {
      var i := start;
      ghost var bound := calls + Log2(start + 1);
      while i > 0
        invariant Up(data, i, cmp) && multiset(data) == old(multiset(data)) && |data| == old(|data|)
        invariant old(calls) <= calls && calls + Log2(i + 1) <= bound
      {
        var done := Raise(i);
        if done {
          return;
        }
        i := (i - 1) / 2;
      }
    }

    /** The child of i to descend to: the smaller one, the left one on a tie. */
    method Smallest(left: nat) returns (smallest: nat)
      requires TotalPreorder(cmp) && left % 2 == 1 && left < |data|
      modifies this`calls
      ensures old(calls) <= calls <= old(calls) + 1
      ensures left <= smallest <= left + 1 && smallest < |data|
      ensures forall k :: 0 < k < |data| && Parent(k) == Parent(left) ==> cmp(data[smallest], data[k]) <= 0
    {
      smallest := left;
      var right := left + 1;
      assert cmp(data[left], data[left]) == 0;
      if right < |data| {
        assert cmp(data[right], data[right]) == 0;
        var c := Compare(data[right], data[left]);
        if c < 0 {
          smallest := right;
        }
      }
    }

    /** One round of siftDown: nothing to do, or the element at i changes place with a child. */
    method Sink(i: nat, ghost lo: nat) returns (done: bool, child: nat)
      requires TotalPreorder(cmp) && Down(data, lo, i, cmp)
      modifies this`data, this`calls
      ensures multiset(data) == old(multiset(data)) && |data| == old(|data|) && old(calls) <= calls
      ensures calls <= old(calls) + if 2 * i + 1 < |data| then 2 else 0
      ensures if done then HeapFrom(data, lo, cmp) else Down(data, lo, child, cmp) && 2 * i + 1 <= child <= 2 * i + 2
    {
      var left := 2 * i + 1;
      if left >= |data| {
        DownDone(data, lo, i, cmp);
        return true, i;
      }
      child := Smallest(left);
      var c := Compare(data[child], data[i]);
      if c >= 0 {
        DownDone(data, lo, i, cmp);
        return true, i;
      }
      DownSwap(data, lo, i, child, cmp);
      data := Swapped(data, i, child);
      done := false;
    }

    method SiftDown(start: nat)
      requires TotalPreorder(cmp) && start < |data| && HeapFrom(data, start + 1, cmp)
      modifies this`data, this`calls
      ensures HeapFrom(data, start, cmp) && multiset(data) == old(multiset(data)) && |data| == old(|data|)
      ensures old(calls) <= calls <= old(calls) + 2 * Height(start + 1, |data|)
    {
      var i := start;
      DownStart(data, start, cmp);
      ghost var n := |data|;
      ghost var bound := calls + 2 * Height(start + 1, n);
      while true
        invariant Down(data, start, i, cmp) && multiset(data) == old(multiset(data)) && |data| == n
        invariant old(calls) <= calls && calls + 2 * Height(i + 1, n) <= bound
        decreases n - i
      {
        CostDown(i, n);
        var done, child := Sink(i, start);
        if done {
          return;
        }
        i := child;
      }
    }

    method Heapify()
      requires TotalPreorder(cmp)
      modifies this`data, this`calls
      ensures Valid() && multiset(data) == old(multiset(data)) && |data| == old(|data|)
      ensures old(calls) <= calls && (data != [] ==> calls - old(calls) < 2 * |data|) &&
              (data == [] ==> calls == old(calls))
    {
      var i := |data| / 2 - 1;
      while i >= 0
        invariant -1 <= i <= |data| / 2 - 1 && HeapFrom(data, i + 1, cmp)
        invariant multiset(data) == old(multiset(data)) && |data| == old(|data|)
        invariant old(calls) <= calls &&
                  calls + 2 * Heights(i + 1, |data|) <= old(calls) + 2 * Heights(|data| / 2, |data|)
      {
        SiftDown(i);
        i := i - 1;
      }
      HeightsBound(|data|);
    }

    constructor (cmp: Comparator<T>)
      requires TotalPreorder(cmp)
      ensures Valid() && data == [] && calls == 0 && this.cmp == cmp
    {
      this.cmp, data, calls := cmp, [], 0;
    }

    constructor From(cmp: Comparator<T>, elements: seq<T>)
      requires TotalPreorder(cmp)
      ensures Valid() && multiset(data) == multiset(elements) && this.cmp == cmp
      ensures elements != [] ==> calls < 2 * |elements|
    {
      this.cmp, data, calls := cmp, elements, 0;
      new;
      Heapify();
    }

    /** The number of comparator calls is at most floor(log2 n) for a heap that reaches size n. */
    method Push(element: T)
      requires Valid()
      modifies this`data, this`calls
      ensures Valid() && multiset(data) == old(multiset(data)) + multiset{element} && |data| == old(|data|) + 1
      ensures old(calls) <= calls && Pow2(calls - old(calls)) <= |data| && calls <= old(calls) + Log2(|data|)
    {
      UpStart(data, element, cmp);
      data := data + [element];
      SiftUp(|data| - 1);
      Log2Bound(|data|);
      Pow2Monotone(calls - old(calls), Log2(|data|));
    }

    method PushAll(elements: seq<T>)
      requires Valid()
      modifies this`data, this`calls
      ensures Valid() && multiset(data) == old(multiset(data)) + multiset(elements)
      ensures elements == [] ==> data == old(data) && calls == old(calls)
      ensures elements != [] && |elements| >= |old(data)| ==> calls - old(calls) < 2 * |data|
      ensures |elements| < |old(data)| ==> calls - old(calls) <= |elements| * Log2(|data|)
    {
      if |elements| == 0 {
        return;
      }
      if |elements| >= |data| {
        data := data + elements;
        Heapify();
        return;
      }
      ghost var most := Log2(|data| + |elements|);
      for k := 0 to |elements|
        invariant Valid() && multiset(data) == old(multiset(data)) + multiset(elements[..k])
        invariant |data| == old(|data|) + k && calls - old(calls) <= k * most
      {
        assert elements[..k + 1] == elements[..k] + [elements[k]];
        Log2Monotone(|data| + 1, |data| + |elements| - k);
        Push(elements[k]);
        assert (k + 1) * most == k * most + most;
      }
      assert elements[..|elements|] == elements;
    }

    /** The root, its place taken by the last element. */
    method TakeRoot() returns (v: T)
      requires HeapFrom(data, 0, cmp) && data != []
      modifies this`data
      ensures v == old(data)[0] && multiset(data) == old(multiset(data)) - multiset{v}
      ensures HeapFrom(data, 1, cmp) && |data| == old(|data|) - 1
    {
      LastToRoot(data, cmp);
      v := data[0];
      var n := |data| - 1;
      data := data[0 := data[n]][..n];
    }

    method Pop() returns (r: Option<T>)
      requires Valid()
      modifies this`data, this`calls
      ensures Valid() && (r.None? <==> old(data) == []) && (r.None? ==> data == [])
      ensures r.Some? ==> Minimum(r.value, old(data), cmp)
      ensures r.Some? ==> multiset(data) == old(multiset(data)) - multiset{r.value} && |data| == old(|data|) - 1
      ensures r.Some? ==> old(calls) <= calls <= old(calls) + 2 * Log2(|data|)
    {
      if |data| == 0 {
        return None;
      }
      RootMinimum(data, cmp);
      var v := TakeRoot();
      if |data| > 0 {
        SiftDown(0);
        HeightOfRoot(|data|);
      }
      return Some(v);
    }

    method Peek() returns (r: Option<T>)
      requires Valid()
      ensures if data == [] then r == None else r.Some? && Minimum(r.value, data, cmp)
    {
      if |data| == 0 {
        return None;
      }
      RootMinimum(data, cmp);
      return Some(data[0]);
    }

    /** Popping until the queue is empty gives the elements in order; every sorted arrangement
        of them, such as the one slices.SortFunc gives ToSortedSlice, agrees with it. */
    method Drain() returns (out: seq<T>)
      requires Valid()
      modifies this`data, this`calls
      ensures Valid() && data == [] && Sorted(out, cmp) && multiset(out) == old(multiset(data))
      ensures forall s :: Sorted(s, cmp) && multiset(s) == old(multiset(data)) ==>
        |s| == |out| && forall i :: 0 <= i < |s| ==> cmp(out[i], s[i]) == 0
    {
      out := [];
      while true
        invariant Valid() && Popped(out, data, cmp) && multiset(out) + multiset(data) == old(multiset(data))
        decreases |data|
      {
        ghost var before := data;
        var r := Pop();
        if r.None? {
          break;
        }
        PoppedNext(out, before, r.value, data, cmp);
        out := out + [r.value];
      }
      forall s | Sorted(s, cmp) && multiset(s) == multiset(out)
        ensures |s| == |out| && forall i :: 0 <= i < |s| ==> cmp(out[i], s[i]) == 0
      {
        SortedAgree(out, s, cmp);
      }
    }
  }
}
