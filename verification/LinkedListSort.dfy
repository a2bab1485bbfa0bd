/**
 linkedList.Sort: merge sort by relinking the nodes of the list. While it runs only the
 forward chain is meaningful; afterwards prev, head and tail are rebuilt.
 */
module LinkedListSort {
  import opened Ordering
  import opened MergeSorting
  import opened LinkedLists

  type Entry<T> = Item<Node<T>, T>

  ghost function NodesOf<T>(s: seq<Entry<T>>): set<Node<T>> {
    set i | 0 <= i < |s| :: s[i].0
  }

  ghost predicate Distinct<T>(s: seq<Entry<T>>) {
    forall i, j :: 0 <= i < j < |s| ==> s[i].0 != s[j].0
  }

  ghost predicate Apart<T>(a: seq<Entry<T>>, b: seq<Entry<T>>) {
    forall i, j :: 0 <= i < |a| && 0 <= j < |b| ==> a[i].0 != b[j].0
  }

  ghost function NodeAt<T>(s: seq<Entry<T>>, i: nat): Node?<T> {
    if i < |s| then s[i].0 else null
  }

  /** The nodes of s, with their elements, linked forward up to the last. */
  ghost predicate Chained<T>(s: seq<Entry<T>>)
    reads NodesOf(s)
  {
    && (forall i {:trigger s[i].0.next} :: 0 <= i < |s| - 1 ==> s[i].0.next == s[i + 1].0)
    && (forall i {:trigger s[i].0.value} :: 0 <= i < |s| ==> s[i].0.value == s[i].1)
  }

  /** Validity during sorting: a forward chain from head to nil; prev links mean nothing. */
  ghost predicate Forward<T>(head: Node?<T>, s: seq<Entry<T>>)
    reads NodesOf(s)
  {
    && Distinct(s) && Chained(s)
    && head == NodeAt(s, 0)
    && (s != [] ==> s[|s| - 1].0.next == null)
  }

  // ---------- merge ----------

  /** A merge in progress: done is linked up to its last node, and the rest of either input
      is a forward chain. */
  datatype Merging<T> = Merging(done: seq<Entry<T>>, left: seq<Entry<T>>, right: seq<Entry<T>>)

  ghost predicate MergeOk<T>(x: Merging<T>, dummy: Node<T>, curr: Node<T>, left: Node?<T>, right: Node?<T>)
    reads NodesOf(x.done), NodesOf(x.left), NodesOf(x.right), dummy
  {
    match x
    case Merging(done, a, b) =>
      && Forward(left, a) && Forward(right, b) && Distinct(done) && Chained(done)
      && Apart(done, a) && Apart(done, b) && Apart(a, b)
      && dummy !in NodesOf(done) && dummy !in NodesOf(a) && dummy !in NodesOf(b)
      && curr == (if done == [] then dummy else done[|done| - 1].0)
      && (done != [] ==> dummy.next == done[0].0)
  }

  /** Moves the first node of the left input to the end of what is done. */
  method TakeLeft<T>(dummy: Node<T>, curr: Node<T>, left: Node<T>, right: Node?<T>, ghost x: Merging<T>)
    returns (rest: Node?<T>, ghost x': Merging<T>)
    requires MergeOk(x, dummy, curr, left, right)
    modifies curr`next
    ensures x.left != [] && x' == Merging(x.done + [x.left[0]], x.left[1..], x.right)
    ensures MergeOk(x', dummy, left, rest, right)
  {
    assert x.left[0].0 == left;
    curr.next := left;
    rest := left.next;
    x' := Merging(x.done + [x.left[0]], x.left[1..], x.right);
  }

  method TakeRight<T>(dummy: Node<T>, curr: Node<T>, left: Node?<T>, right: Node<T>, ghost x: Merging<T>)
    returns (rest: Node?<T>, ghost x': Merging<T>)
    requires MergeOk(x, dummy, curr, left, right)
    modifies curr`next
    ensures x.right != [] && x' == Merging(x.done + [x.right[0]], x.left, x.right[1..])
    ensures MergeOk(x', dummy, right, left, rest)
  {
    assert x.right[0].0 == right;
    curr.next := right;
    rest := right.next;
    x' := Merging(x.done + [x.right[0]], x.left, x.right[1..]);
  }

  /** Hangs the rest of one input, the other being used up, on what is done. */
  method TakeRest<T>(dummy: Node<T>, curr: Node<T>, rest: Node?<T>, ghost done: seq<Entry<T>>, ghost s: seq<Entry<T>>)
    requires Forward(rest, s) && Distinct(done) && Chained(done) && Apart(done, s)
    requires dummy !in NodesOf(done) && dummy !in NodesOf(s)
    requires curr == (if done == [] then dummy else done[|done| - 1].0)
    requires done != [] ==> dummy.next == done[0].0
    modifies curr`next
    ensures Forward(dummy.next, done + s)
  {
    curr.next := rest;
  }

  /** What a merge in progress will come to. */
  ghost function Merged<T>(x: Merging<T>, cmp: Comparator<T>): seq<Entry<T>> {
    x.done + Merge(x.left, x.right, cmp)
  }

  lemma MergeStart<T>(dummy: Node<T>, left: Node?<T>, right: Node?<T>, a: seq<Entry<T>>, b: seq<Entry<T>>,
                      cmp: Comparator<T>)
    returns (x: Merging<T>)
    requires Forward(left, a) && Forward(right, b) && Apart(a, b) && dummy !in NodesOf(a) && dummy !in NodesOf(b)
    ensures MergeOk(x, dummy, dummy, left, right)
    ensures AllNodes(x) == NodesOf(a) + NodesOf(b) && Merged(x, cmp) == Merge(a, b, cmp)
    ensures x.left == a && x.right == b
  {
    x := Merging([], a, b);
  }

  lemma MergeStep<T>(a: seq<Entry<T>>, b: seq<Entry<T>>, done: seq<Entry<T>>, cmp: Comparator<T>)
    requires a != [] && b != []
    ensures done + Merge(a, b, cmp) ==
            if cmp(a[0].1, b[0].1) <= 0 then (done + [a[0]]) + Merge(a[1..], b, cmp)
            else (done + [b[0]]) + Merge(a, b[1..], cmp)
  {
  }

  ghost function AllNodes<T>(x: Merging<T>): set<Node<T>> {
    NodesOf(x.done) + NodesOf(x.left) + NodesOf(x.right)
  }

  lemma TakenNodes<T>(done: seq<Entry<T>>, s: seq<Entry<T>>)
    requires s != []
    ensures NodesOf(done + [s[0]]) + NodesOf(s[1..]) == NodesOf(done) + NodesOf(s)
  {
    forall n | n in NodesOf(s)
      ensures n in NodesOf(done + [s[0]]) + NodesOf(s[1..])
    {
      var i :| 0 <= i < |s| && s[i].0 == n;
      assert if i == 0 then (done + [s[0]])[|done|].0 == n else s[1..][i - 1].0 == n;
    }
    forall n | n in NodesOf(done)
      ensures n in NodesOf(done + [s[0]])
    {
      var i :| 0 <= i < |done| && done[i].0 == n;
      assert (done + [s[0]])[i].0 == n;
    }
  }

  /** A round of the merge loop: the smaller of the two first nodes, the left one on a tie. */
  method TakeSmaller<T>(dummy: Node<T>, curr: Node<T>, left: Node<T>, right: Node<T>, cmp: Comparator<T>,
                        ghost x: Merging<T>)
    returns (taken: Node<T>, left': Node?<T>, right': Node?<T>, ghost x': Merging<T>)
    requires MergeOk(x, dummy, curr, left, right)
    modifies curr`next
    ensures MergeOk(x', dummy, taken, left', right')
    ensures Merged(x', cmp) == Merged(x, cmp)
    ensures AllNodes(x') == AllNodes(x) && taken in AllNodes(x)
    ensures |x'.left| + |x'.right| + 1 == |x.left| + |x.right|
  {
    assert left == x.left[0].0 && right == x.right[0].0;
    MergeStep(x.left, x.right, x.done, cmp);
    left', right' := left, right;
    if cmp(left.value, right.value) <= 0 {
      TakenNodes(x.done, x.left);
      left', x' := TakeLeft(dummy, curr, left, right, x);
      taken := left;
    } else {
      TakenNodes(x.done, x.right);
      right', x' := TakeRight(dummy, curr, left, right, x);
      taken := right;
    }
  }

  /** Each comparator call of a merge settles the place of one of the n nodes, and the last
      node needs none. */
  ghost predicate MergeCost(calls: nat, n: nat) { calls == 0 || calls < n }

  method MergeLoop<T>(dummy: Node<T>, left0: Node?<T>, right0: Node?<T>, cmp: Comparator<T>,
                      ghost x0: Merging<T>, ghost all: set<Node<T>>)
    returns (curr: Node<T>, left: Node?<T>, right: Node?<T>, ghost x: Merging<T>, ghost calls: nat)
    requires MergeOk(x0, dummy, dummy, left0, right0) && all == AllNodes(x0)
    modifies dummy`next, all`next
    ensures MergeOk(x, dummy, curr, left, right) && (left == null || right == null)
    ensures Merged(x, cmp) == Merged(x0, cmp) && curr in all + {dummy}
    ensures MergeCost(calls, |x0.left| + |x0.right|)
  {
    curr, left, right, x, calls := dummy, left0, right0, x0, 0;
    while left != null && right != null
      invariant MergeOk(x, dummy, curr, left, right) && Merged(x, cmp) == Merged(x0, cmp)
      invariant AllNodes(x) == all && curr in all + {dummy}
      invariant calls + |x.left| + |x.right| == |x0.left| + |x0.right|
      invariant calls > 0 ==> |x.left| + |x.right| > 0
      decreases |x.left| + |x.right|
    {
      curr, left, right, x := TakeSmaller(dummy, curr, left, right, cmp, x);
      calls := calls + 1;
    }
  }

  /** Appends whichever input is left. */
  method MergeRest<T>(dummy: Node<T>, curr: Node<T>, left: Node?<T>, right: Node?<T>, cmp: Comparator<T>,
                      ghost x: Merging<T>, ghost merged: seq<Entry<T>>)
    requires MergeOk(x, dummy, curr, left, right) && (left == null || right == null)
    requires Merged(x, cmp) == merged
    modifies curr`next
    ensures Forward(dummy.next, merged)
  {
    if left != null {
      assert x.right == [];
      TakeRest(dummy, curr, left, x.done, x.left);
    } else {
      assert x.left == [];
      TakeRest(dummy, curr, right, x.done, x.right);
    }
  }

  method MergeBehind<T>(dummy: Node<T>, left0: Node?<T>, right0: Node?<T>, cmp: Comparator<T>,
                        ghost x0: Merging<T>, ghost all: set<Node<T>>)
    returns (res: Node?<T>, ghost calls: nat)
    requires MergeOk(x0, dummy, dummy, left0, right0) && all == AllNodes(x0)
    modifies dummy`next, all`next
    ensures Forward(res, Merged(x0, cmp)) && MergeCost(calls, |x0.left| + |x0.right|)
  {
    var curr, left, right, x, n := MergeLoop(dummy, left0, right0, cmp, x0, all);
    MergeRest(dummy, curr, left, right, cmp, x, Merged(x0, cmp));
    res, calls := dummy.next, n;
  }

  method MergeChains<T(0)>(left: Node?<T>, right: Node?<T>, cmp: Comparator<T>, ghost a: seq<Entry<T>>,
                       ghost b: seq<Entry<T>>)
    returns (res: Node?<T>, ghost calls: nat)
    requires Forward(left, a) && Forward(right, b) && Apart(a, b)
    modifies NodesOf(a)`next, NodesOf(b)`next
    ensures Forward(res, Merge(a, b, cmp)) && MergeCost(calls, |a| + |b|)
  {
    var zero: T := *;
    var dummy := new Node(zero, null, null);
    ghost var x := MergeStart(dummy, left, right, a, b, cmp);
    res, calls := MergeBehind(dummy, left, right, cmp, x, NodesOf(a) + NodesOf(b));
  }

  // ---------- mergeSort ----------

  /** The slow and fast pointers: slow stops at the last node of the first half. */
  method FindMiddle<T>(head: Node<T>, ghost s: seq<Entry<T>>) returns (slow: Node<T>)
    requires Forward(head, s) && |s| >= 2
    ensures slow == s[Middle(|s|) - 1].0
  {
    slow := head;
    var fast := head.next;
    ghost var i := 0;
    while fast != null && fast.next != null
      invariant 0 <= i && 2 * i + 1 <= |s| && slow == s[i].0 && fast == NodeAt(s, 2 * i + 1)
      decreases |s| - i
    {
      assert s[2 * i + 1].0.next == fast.next;
      slow := slow.next;
      fast := fast.next.next;
      i := i + 1;
    }
  }

  /** Cuts a forward chain after its first m nodes. */
  method Cut<T>(slow: Node<T>, ghost s: seq<Entry<T>>, ghost m: nat) returns (mid: Node?<T>)
    requires 0 < m < |s| && Forward(s[0].0, s) && slow == s[m - 1].0
    modifies slow`next
    ensures Forward(s[0].0, s[..m]) && Forward(mid, s[m..]) && Apart(s[..m], s[m..])
  {
    mid := slow.next;
    slow.next := null;
  }

  lemma PartNodes<T>(s: seq<Entry<T>>, m: nat)
    requires m <= |s|
    ensures NodesOf(s[..m]) <= NodesOf(s) && NodesOf(s[m..]) <= NodesOf(s)
  {
    forall n | n in NodesOf(s[m..])
      ensures n in NodesOf(s)
    {
      var i :| 0 <= i < |s[m..]| && s[m..][i].0 == n;
      assert s[i + m].0 == n;
    }
  }

  lemma SortNodes<T>(s: seq<Entry<T>>, cmp: Comparator<T>)
    ensures NodesOf(MergeSort(s, cmp)) == NodesOf(s)
  {
    var t := MergeSort(s, cmp);
    SortMultiset(s, cmp);
    forall n | n in NodesOf(s)
      ensures n in NodesOf(t)
    {
      var i :| 0 <= i < |s| && s[i].0 == n;
      assert s[i] in multiset(t);
    }
    forall n | n in NodesOf(t)
      ensures n in NodesOf(s)
    {
      var i :| 0 <= i < |t| && t[i].0 == n;
      assert t[i] in multiset(s);
    }
  }

  lemma ApartSorted<T>(a: seq<Entry<T>>, b: seq<Entry<T>>, cmp: Comparator<T>)
    requires Apart(a, b)
    ensures Apart(MergeSort(a, cmp), b) && Apart(MergeSort(a, cmp), MergeSort(b, cmp))
  {
    SortNodes(a, cmp);
    SortNodes(b, cmp);
    var c, d := MergeSort(a, cmp), MergeSort(b, cmp);
    forall i, j | 0 <= i < |c| && 0 <= j < |b|
      ensures c[i].0 != b[j].0
    {
      assert c[i].0 in NodesOf(a);
    }
    forall i, j | 0 <= i < |c| && 0 <= j < |d|
      ensures c[i].0 != d[j].0
    {
      assert c[i].0 in NodesOf(a) && d[j].0 in NodesOf(b);
    }
  }

  /** Sorting the two halves leaves each its nodes. */
  lemma HalvesSorted<T>(s: seq<Entry<T>>, m: nat, cmp: Comparator<T>)
    requires m <= |s| && Apart(s[..m], s[m..])
    ensures var a, b := MergeSort(s[..m], cmp), MergeSort(s[m..], cmp);
            && Apart(a, b) && |a| + |b| == |s|
            && NodesOf(a) == NodesOf(s[..m]) && NodesOf(b) == NodesOf(s[m..])
  {
    ApartSorted(s[..m], s[m..], cmp);
    SortNodes(s[..m], cmp);
    SortNodes(s[m..], cmp);
    SortMultiset(s[..m], cmp);
    SortMultiset(s[m..], cmp);
  }

  /** Splits a forward chain in the middle. */
  method Halve<T>(head: Node<T>, ghost s: seq<Entry<T>>) returns (mid: Node?<T>)
    requires Forward(head, s) && |s| >= 2
    modifies NodesOf(s)`next
    ensures var m := Middle(|s|); Forward(head, s[..m]) && Forward(mid, s[m..]) && Apart(s[..m], s[m..])
  {
    var slow := FindMiddle(head, s);
    mid := Cut(slow, s, Middle(|s|));
  }

  /** Merges the two halves, each sorted. */
  method JoinHalves<T(0)>(left: Node?<T>, right: Node?<T>, cmp: Comparator<T>, ghost s: seq<Entry<T>>)
    returns (res: Node?<T>, ghost calls: nat)
    requires |s| >= 2 && Apart(s[..Middle(|s|)], s[Middle(|s|)..])
    requires Forward(left, MergeSort(s[..Middle(|s|)], cmp)) && Forward(right, MergeSort(s[Middle(|s|)..], cmp))
    modifies NodesOf(s)`next
    ensures Forward(res, MergeSort(s, cmp)) && MergeCost(calls, |s|)
  {
    ghost var m := Middle(|s|);
    HalvesSorted(s, m, cmp);
    PartNodes(s, m);
    res, calls := MergeChains(left, right, cmp, MergeSort(s[..m], cmp), MergeSort(s[m..], cmp));
  }

  /** Sorts the first m nodes and the rest, each as a chain of its own. */
  method SortHalves<T(0)>(head: Node<T>, mid: Node?<T>, cmp: Comparator<T>, ghost s: seq<Entry<T>>)
    returns (left: Node?<T>, right: Node?<T>, ghost calls: nat)
    requires |s| >= 2 && Apart(s[..Middle(|s|)], s[Middle(|s|)..])
    requires Forward(head, s[..Middle(|s|)]) && Forward(mid, s[Middle(|s|)..])
    modifies NodesOf(s)`next
    ensures Forward(left, MergeSort(s[..Middle(|s|)], cmp)) && Forward(right, MergeSort(s[Middle(|s|)..], cmp))
    ensures calls <= SortCalls(Middle(|s|)) + SortCalls(|s| - Middle(|s|))
    decreases |s|, 0
  {
    ghost var m := Middle(|s|);
    PartNodes(s, m);
    HalvesSorted(s, m, cmp);
    ghost var n, k;
    left, n := MergeSortChain(head, cmp, s[..m]);
    right, k := MergeSortChain(mid, cmp, s[m..]);
    calls := n + k;
  }

  method MergeSortChain<T(0)>(head: Node?<T>, cmp: Comparator<T>, ghost s: seq<Entry<T>>)
    returns (res: Node?<T>, ghost calls: nat)
    requires Forward(head, s)
    modifies NodesOf(s)`next
    ensures Forward(res, MergeSort(s, cmp))
    ensures calls <= SortCalls(|s|)
    decreases |s|, 1
  {
    if head == null || head.next == null {
      return head, 0;
    }
    var mid := Halve(head, s);
    var left, right, n := SortHalves(head, mid, cmp, s);
    ghost var c;
    res, c := JoinHalves(left, right, cmp, s);
    calls := n + c;
  }

  // ---------- Sort ----------

  /** Nodes paired with their elements. */
  ghost function Pairs<T>(ns: seq<Node<T>>, vals: seq<T>): (r: seq<Entry<T>>)
    requires |ns| == |vals|
    ensures |r| == |ns| && forall i :: 0 <= i < |r| ==> r[i] == (ns[i], vals[i])
  {
    if ns == [] then [] else Pairs(ns[..|ns| - 1], vals[..|ns| - 1]) + [(ns[|ns| - 1], vals[|ns| - 1])]
  }

  ghost function Firsts<T>(s: seq<Entry<T>>): (r: seq<Node<T>>)
    ensures |r| == |s| && forall i :: 0 <= i < |r| ==> r[i] == s[i].0
  {
    seq(|s|, i requires 0 <= i < |s| => s[i].0)
  }

  ghost function Seconds<T>(s: seq<Entry<T>>): (r: seq<T>)
    ensures |r| == |s| && forall i :: 0 <= i < |r| ==> r[i] == s[i].1
  {
    seq(|s|, i requires 0 <= i < |s| => s[i].1)
  }

  /** A valid list is a forward chain. */
  lemma ValidForward<T>(l: LinkedList<T>)
    requires l.Valid()
    ensures Forward(l.head, Pairs(l.nodes, l.elems)) && NodesOf(Pairs(l.nodes, l.elems)) <= l.Repr
  {
  }

  /** The first i nodes point back at the node before them. */
  ghost predicate LinkedBack<T>(s: seq<Entry<T>>, i: int)
    reads NodesOf(s)
  {
    && i <= |s|
    && forall k {:trigger s[k].0.prev} :: 0 <= k < i ==> s[k].0.prev == if k == 0 then null else s[k - 1].0
  }

  /** The loop after the merge sort: prev links and the tail, from the forward chain alone. */
  method LinkBack<T>(l: LinkedList<T>, ghost s: seq<Entry<T>>)
    requires Forward(l.head, s) && s != []
    modifies l`tail, NodesOf(s)`prev
    ensures Forward(l.head, s) && LinkedBack(s, |s|) && l.tail == s[|s| - 1].0
  {
    var prev: Node?<T> := null;
    var n := l.head;
    ghost var i := 0;
    while n != null
      invariant 0 <= i <= |s| && n == NodeAt(s, i)
      invariant prev == if i == 0 then null else s[i - 1].0
      invariant Forward(l.head, s) && LinkedBack(s, i)
      invariant i == |s| ==> l.tail == s[|s| - 1].0
      decreases |s| - i
    {
      assert s[i].0 == n;
      n.prev := prev;
      if n.next == null {
        l.tail := n;
      }
      prev := n;
      n := n.next;
      i := i + 1;
    }
  }

  method Rebuild<T>(l: LinkedList<T>, ghost s: seq<Entry<T>>)
    requires Forward(l.head, s) && s != [] && l.size == |s| && NodesOf(s) <= l.Repr
    modifies l`tail, l`nodes, l`elems, NodesOf(s)`prev
    ensures l.Valid() && Pairs(l.nodes, l.elems) == s
  {
    LinkBack(l, s);
    l.nodes, l.elems := Firsts(s), Seconds(s);
  }

  lemma SortedSame<T(!new)>(s: seq<Entry<T>>, t: seq<Entry<T>>, vals: seq<T>, cmp: Comparator<T>)
    requires t == MergeSort(s, cmp) && |vals| == |t| && forall i :: 0 <= i < |t| ==> vals[i] == t[i].1
    ensures multiset(t) == multiset(s)
    ensures TotalPreorder(cmp) ==> Sorted(vals, cmp) && forall x :: Equals(t, x, cmp) == Equals(s, x, cmp)
  {
    SortMultiset(s, cmp);
    if TotalPreorder(cmp) {
      SortSorted(s, cmp);
      forall x {
        SortStable(s, x, cmp);
      }
    }
  }

  /** Relinks the chain and then rebuilds the rest of the list. */
  method Relink<T(0)>(l: LinkedList<T>, cmp: Comparator<T>, ghost s: seq<Entry<T>>) returns (ghost calls: nat)
    requires l.Valid() && s == Pairs(l.nodes, l.elems)
    modifies l, l.Repr
    ensures l.Valid() && l.size == old(l.size) && l.Repr == old(l.Repr)
    ensures Pairs(l.nodes, l.elems) == MergeSort(s, cmp)
    ensures calls <= SortCalls(old(l.size))
  {
    calls := 0;
    if l.size <= 1 {
      return;
    }
    ValidForward(l);
    SortNodes(s, cmp);
    SortMultiset(s, cmp);
    var head, n := MergeSortChain(l.head, cmp, s);
    calls := n;
    l.head := head;
    Rebuild(l, MergeSort(s, cmp));
  }

  /** Sorts the list in place: the same nodes, each with its element, in the comparator's
      order, equal elements in the order they had, and every link of the list restored. A list
      of n elements takes at most n times log2 n, rounded up, comparator calls. */
  method Sort<T(0, !new)>(l: LinkedList<T>, cmp: Comparator<T>) returns (ghost calls: nat)
    requires l.Valid()
    modifies l, l.Repr
    ensures l.Valid() && l.size == old(l.size) && l.Repr == old(l.Repr)
    ensures multiset(Pairs(l.nodes, l.elems)) == multiset(Pairs(old(l.nodes), old(l.elems)))
    ensures TotalPreorder(cmp) ==> Sorted(l.elems, cmp)
    ensures TotalPreorder(cmp) ==>
      forall x :: Equals(Pairs(l.nodes, l.elems), x, cmp) == Equals(Pairs(old(l.nodes), old(l.elems)), x, cmp)
    ensures calls <= old(l.size) * Levels(old(l.size))
  {
    ghost var s := Pairs(l.nodes, l.elems);
    SortCallsBound(l.size);
    calls := Relink(l, cmp, s);
    SortedSame(s, Pairs(l.nodes, l.elems), l.elems, cmp);
  }
}
