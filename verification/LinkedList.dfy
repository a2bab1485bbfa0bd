/**
 The doubly linked list of linkedlist.go.
 */
module LinkedLists {
  import opened Common

  class Node<T> {
    var value: T
    var prev: Node?<T>
    var next: Node?<T>

    constructor (value: T, prev: Node?<T>, next: Node?<T>)
      ensures this.value == value && this.prev == prev && this.next == next
    {
      this.value, this.prev, this.next := value, prev, next;
    }
  }

  /** Neighbours in ns point at each other. */
  ghost predicate Linked<T>(ns: seq<Node<T>>)
    reads ns
  {
    && (forall i {:trigger ns[i].next} :: 0 <= i < |ns| - 1 ==> ns[i].next == ns[i + 1])
    && (forall i {:trigger ns[i].prev} :: 0 < i < |ns| ==> ns[i].prev == ns[i - 1])
  }

  /** head and tail are the ends of the chain, and nothing lies beyond them. */
  ghost predicate Ends<T>(ns: seq<Node<T>>, head: Node?<T>, tail: Node?<T>)
    reads ns
  {
    if ns == [] then head == null && tail == null
    else head == ns[0] && head.prev == null && tail == ns[|ns| - 1] && tail.next == null
  }

  ghost predicate Holds<T>(ns: seq<Node<T>>, vals: seq<T>)
    reads ns
  {
    |ns| == |vals| && forall i :: 0 <= i < |ns| ==> ns[i].value == vals[i]
  }

  /** Putting n between two neighbours of a chain that is linked everywhere else. */
  lemma LinkedBetween<T>(ns: seq<Node<T>>, i: nat, n: Node<T>)
    requires 0 < i < |ns|
    requires forall k {:trigger ns[k].next} :: 0 <= k < |ns| - 1 && k != i - 1 ==> ns[k].next == ns[k + 1]
    requires forall k {:trigger ns[k].prev} :: 0 < k < |ns| && k != i ==> ns[k].prev == ns[k - 1]
    requires ns[i - 1].next == n && n.prev == ns[i - 1] && n.next == ns[i] && ns[i].prev == n
    ensures Linked(ns[..i] + [n] + ns[i..])
  {
  }

  lemma NoDupInsert<T>(ns: seq<Node<T>>, i: nat, n: Node<T>)
    requires NoDup(ns) && n !in ns && i <= |ns|
    ensures NoDup(ns[..i] + [n] + ns[i..])
  {
  }

  lemma HoldsInsert<T>(ns: seq<Node<T>>, vals: seq<T>, i: nat, n: Node<T>)
    requires Holds(ns, vals) && i <= |ns|
    ensures Holds(ns[..i] + [n] + ns[i..], vals[..i] + [n.value] + vals[i..])
  {
  }

  lemma HoldsWithout<T>(ns: seq<Node<T>>, vals: seq<T>, i: nat)
    requires Holds(ns, vals) && i < |ns|
    ensures Holds(ns[..i] + ns[i + 1..], vals[..i] + vals[i + 1..])
  {
  }

  lemma LinkedConcat<T>(a: seq<Node<T>>, b: seq<Node<T>>)
    requires Linked(a) && Linked(b)
    requires a != [] && b != [] ==> a[|a| - 1].next == b[0] && b[0].prev == a[|a| - 1]
    ensures Linked(a + b)
  {
  }

  lemma NoDupConcat<T>(a: seq<Node<T>>, b: seq<Node<T>>)
    requires NoDup(a) && NoDup(b) && forall n :: n in a ==> n !in b
    ensures NoDup(a + b)
  {
    forall i, j | 0 <= i < j < |a + b|
      ensures (a + b)[i] != (a + b)[j]
    {
      assert i < |a| ==> (a + b)[i] in a;
      assert j >= |a| ==> (a + b)[j] in b;
    }
  }

  /** Taking node i out of a chain, its two neighbours having been joined. */
  lemma LinkedAround<T>(ns: seq<Node<T>>, i: nat)
    requires i < |ns| && NoDup(ns)
    requires forall k {:trigger ns[k].next} :: 0 <= k < |ns| - 1 && k != i - 1 ==> ns[k].next == ns[k + 1]
    requires forall k {:trigger ns[k].prev} :: 0 < k < |ns| && k != i + 1 ==> ns[k].prev == ns[k - 1]
    requires i > 0 && i + 1 < |ns| ==> ns[i - 1].next == ns[i + 1] && ns[i + 1].prev == ns[i - 1]
    ensures Linked(ns[..i] + ns[i + 1..]) && NoDup(ns[..i] + ns[i + 1..])
  {
  }

  lemma LinkedLast<T>(ns: seq<Node<T>>, n: Node<T>)
    requires NoDup(ns) && Linked(ns) && n !in ns
    requires ns != [] ==> ns[|ns| - 1].next == n && n.prev == ns[|ns| - 1]
    ensures NoDup(ns + [n]) && Linked(ns + [n])
  {
  }

  lemma SplitChain<T>(ns: seq<Node<T>>, i: nat)
    requires NoDup(ns) && Linked(ns) && i <= |ns|
    ensures NoDup(ns[..i]) && NoDup(ns[i..]) && Linked(ns[..i]) && Linked(ns[i..])
    ensures forall n :: n in ns[..i] ==> n !in ns[i..]
  {
  }

  class LinkedList<T> {
    var head: Node?<T>
    var tail: Node?<T>
    var size: int
    // The nodes from head to tail, the elements in them, and every node the list may touch.
    ghost var nodes: seq<Node<T>>
    ghost var elems: seq<T>
    ghost var Repr: set<Node<T>>

    ghost predicate Valid()
      reads this, Repr
    {
      && size == |nodes|
      && (forall i :: 0 <= i < |nodes| ==> nodes[i] in Repr)
      && NoDup(nodes) && Linked(nodes) && Holds(nodes, elems) && Ends(nodes, head, tail)
    }

    constructor ()
      ensures Valid() && Repr == {} && elems == [] && nodes == []
    {
      head, tail, size, nodes, elems, Repr := null, null, 0, [], [], {};
    }

    method Clear()
      modifies this
      ensures Valid() && Repr == {} && elems == [] && nodes == []
    {
      head, tail, size, nodes, elems, Repr := null, null, 0, [], [], {};
    }

    method Add(element: T)
      requires Valid()
      modifies this, Repr
      ensures Valid() && fresh(Repr - old(Repr)) && elems == old(elems) + [element]
      ensures |nodes| == old(|nodes|) + 1 && nodes[..old(|nodes|)] == old(nodes) && fresh(nodes[old(|nodes|)])
    {
      var n := new Node(element, tail, null);
      if tail != null {
        tail.next := n;
      } else {
        head := n;
      }
      tail := n;
      size := size + 1;
      nodes, elems, Repr := nodes + [n], elems + [element], Repr + {n};
    }

    method AddFirst(element: T)
      requires Valid()
      modifies this, Repr
      ensures Valid() && fresh(Repr - old(Repr)) && elems == [element] + old(elems)
      ensures |nodes| == old(|nodes|) + 1 && nodes[1..] == old(nodes) && fresh(nodes[0])
    {
      var n := new Node(element, null, head);
      if head != null {
        head.prev := n;
      } else {
        tail := n;
      }
      head := n;
      size := size + 1;
      nodes, elems, Repr := [n] + nodes, [element] + elems, Repr + {n};
    }

    /** The node at index, null if there is none, in at most half as many steps as there are
        nodes: the walk is from the nearer end. */
    method NodeAt(index: int) returns (n: Node?<T>, ghost steps: nat)
      requires Valid()
      ensures n == if 0 <= index < |nodes| then nodes[index] else null
      ensures 2 * steps <= |nodes|
    {
      steps := 0;
      if index < 0 || index >= size {
        return null, 0;
      }
      if index < size / 2 {
        n := head;
        for k := 0 to index
          invariant n == nodes[k] && steps == k
        {
          n := n.next;
          steps := steps + 1;
        }
        return;
      }
      n := tail;
      var i := size - 1;
      while i > index
        invariant index <= i < |nodes| && n == nodes[i] && steps == |nodes| - 1 - i
      {
        n := n.prev;
        steps := steps + 1;
        i := i - 1;
      }
    }

    method Get(index: int) returns (r: Option<T>)
      requires Valid()
      ensures r == if 0 <= index < |elems| then Some(elems[index]) else None
    {
      var n, _ := NodeAt(index);
      if n == null {
        return None;
      }
      return Some(n.value);
    }

    method Set(index: int, element: T) returns (r: Option<T>)
      requires Valid()
      modifies Repr, this`elems
      ensures Valid() && nodes == old(nodes)
      ensures r == if 0 <= index < |old(elems)| then Some(old(elems)[index]) else None
      ensures elems == if 0 <= index < |old(elems)| then old(elems)[index := element] else old(elems)
    {
      var n, _ := NodeAt(index);
      if n == null {
        return None;
      }
      r := Some(n.value);
      n.value := element;
      elems := elems[index := element];
    }

    method Insert(index: int, element: T) returns (ok: bool)
      requires Valid()
      modifies this, Repr
      ensures Valid() && fresh(Repr - old(Repr))
      ensures ok <==> 0 <= index <= |old(elems)|
      ensures elems == if ok then old(elems)[..index] + [element] + old(elems)[index..] else old(elems)
    {
      if index < 0 || index > size {
        return false;
      }
      if index == 0 {
        AddFirst(element);
        return true;
      }
      if index == size {
        Add(element);
        return true;
      }
      InsertBefore(index, element);
      return true;
    }

    /** Links a new node in before the node at index. */
    method LinkBefore(index: nat, element: T) returns (n: Node<T>)
      requires Valid() && 0 < index < size
      modifies Repr
      ensures fresh(n) && n.value == element && Holds(nodes, elems)
      ensures nodes[0].prev == null && nodes[|nodes| - 1].next == null
      ensures var ns := nodes[..index] + [n] + nodes[index..]; Linked(ns) && NoDup(ns)
    {
      var target, _ := NodeAt(index);
      n := new Node(element, target.prev, target);
      assert target.prev == nodes[index - 1];
      target.prev.next := n;
      target.prev := n;
      LinkedBetween(nodes, index, n);
      NoDupInsert(nodes, index, n);
    }

    method InsertBefore(index: nat, element: T)
      requires Valid() && 0 < index < size
      modifies this, Repr
      ensures Valid() && fresh(Repr - old(Repr)) && elems == old(elems)[..index] + [element] + old(elems)[index..]
    {
      var n := LinkBefore(index, element);
      size := size + 1;
      HoldsInsert(nodes, elems, index, n);
      nodes, elems := nodes[..index] + [n] + nodes[index..], elems[..index] + [element] + elems[index..];
      Repr := Repr + {n};
    }

    /** Joins the neighbours of n, which is the node at index i. */
    method Unlink(n: Node<T>, ghost i: nat)
      requires Valid() && i < |nodes| && n == nodes[i]
      modifies this`head, this`tail, Repr
      ensures Holds(nodes, elems)
      ensures var ns := nodes[..i] + nodes[i + 1..]; Linked(ns) && NoDup(ns) && Ends(ns, head, tail)
    {
      if n.prev != null {
        n.prev.next := n.next;
      } else {
        head := n.next;
      }
      if n.next != null {
        n.next.prev := n.prev;
      } else {
        tail := n.prev;
      }
      LinkedAround(nodes, i);
    }

    method RemoveNode(n: Node<T>, ghost i: nat) returns (v: T)
      requires Valid() && i < |nodes| && n == nodes[i]
      modifies this, Repr
      ensures Valid() && Repr == old(Repr) && v == old(elems)[i]
      ensures nodes == old(nodes)[..i] + old(nodes)[i + 1..]
      ensures elems == old(elems)[..i] + old(elems)[i + 1..]
    {
      v := n.value;
      Unlink(n, i);
      size := size - 1;
      HoldsWithout(nodes, elems, i);
      nodes, elems := nodes[..i] + nodes[i + 1..], elems[..i] + elems[i + 1..];
    }

    method RemoveAt(index: int) returns (r: Option<T>)
      requires Valid()
      modifies this, Repr
      ensures Valid() && fresh(Repr - old(Repr))
      ensures r == if 0 <= index < |old(elems)| then Some(old(elems)[index]) else None
      ensures elems == if r.Some? then old(elems)[..index] + old(elems)[index + 1..] else old(elems)
    {
      var n, _ := NodeAt(index);
      if n == null {
        return None;
      }
      var v := RemoveNode(n, index);
      return Some(v);
    }

    method RemoveFirst() returns (r: Option<T>)
      requires Valid()
      modifies this, Repr
      ensures Valid() && fresh(Repr - old(Repr))
      ensures if old(elems) == [] then r == None && elems == []
              else r == Some(old(elems)[0]) && elems == old(elems)[1..]
    {
      if head == null {
        return None;
      }
      var v := RemoveNode(head, 0);
      return Some(v);
    }

    method RemoveLast() returns (r: Option<T>)
      requires Valid()
      modifies this, Repr
      ensures Valid() && fresh(Repr - old(Repr))
      ensures if old(elems) == [] then r == None && elems == []
              else r == Some(old(elems)[|old(elems)| - 1]) && elems == old(elems)[..|old(elems)| - 1]
    {
      if tail == null {
        return None;
      }
      var v := RemoveNode(tail, |nodes| - 1);
      return Some(v);
    }

    /** Removes the first element equal to the argument. */
    method Remove(element: T, eq: Equaler<T>) returns (ok: bool)
      requires Valid()
      modifies this, Repr
      ensures Valid() && fresh(Repr - old(Repr))
      ensures !ok ==> Unequal(old(elems), element, eq) && elems == old(elems)
      ensures ok ==> exists i :: IsFirst(old(elems), i, element, eq) && elems == old(elems)[..i] + old(elems)[i + 1..]
    {
      var n := head;
      ghost var i := 0;
      while n != null
        invariant 0 <= i <= |nodes| && n == if i < |nodes| then nodes[i] else null
        invariant forall j :: 0 <= j < i ==> !eq(elems[j], element)
        invariant Valid() && elems == old(elems) && nodes == old(nodes) && Repr == old(Repr)
        decreases |nodes| - i
      {
        if eq(n.value, element) {
          var _ := RemoveNode(n, i);
          return true;
        }
        n := n.next;
        i := i + 1;
      }
      return false;
    }

    /** The walk of RemoveFunc over s is at n. */
    ghost predicate WalkedTo(n: Node?<T>, s: seq<T>, p: Progress<T>)
      reads this, Repr
    {
      match p
      case Progress(k, kept) =>
        && Valid() && k <= |s| && elems == kept + s[k..]
        && n == if |kept| < |nodes| then nodes[|kept|] else null
    }

    /** Visits n, which is unlinked if its element satisfies the predicate. */
    method RemoveIf(n: Node<T>, predicate_: T -> bool, ghost s: seq<T>, ghost p: Progress<T>)
      returns (next: Node?<T>, gone: bool, ghost p': Progress<T>)
      requires WalkedTo(n, s, p)
      modifies this, Repr
      ensures Repr == old(Repr) && WalkedTo(next, s, p')
      ensures p.done < |s| && gone == predicate_(s[p.done])
      ensures p' == Progress(p.done + 1, if gone then p.kept else p.kept + [s[p.done]])
    {
      ghost var k, kept := p.done, p.kept;
      assert |nodes| == |elems| == |kept| + (|s| - k);
      WalkedPast(kept, s, k);
      next := n.next;
      gone := predicate_(n.value);
      p' := Progress(k + 1, if gone then kept else kept + [s[k]]);
      if gone {
        var _ := RemoveNode(n, |kept|);
      }
    }

    /** A round of the loop of RemoveFunc. */
    method RemoveRound(n: Node<T>, predicate_: T -> bool, removed: nat, ghost s: seq<T>, ghost p: Progress<T>)
      returns (next: Node?<T>, removed': nat, ghost p': Progress<T>)
      requires WalkedTo(n, s, p) && Trimmed(s, p, removed, predicate_)
      modifies this, Repr
      ensures Repr == old(Repr) && WalkedTo(next, s, p') && Trimmed(s, p', removed', predicate_)
      ensures p.done < p'.done <= |s|
    {
      var gone;
      next, gone, p' := RemoveIf(n, predicate_, s, p);
      removed' := removed;
      if gone {
        removed' := removed' + 1;
      }
    }

    /** The loop of RemoveFunc. */
    method RemoveWalk(predicate_: T -> bool) returns (removed: nat, ghost p: Progress<T>)
      requires Valid()
      modifies this, Repr
      ensures Repr == old(Repr) && WalkedTo(null, old(elems), p) && Trimmed(old(elems), p, removed, predicate_)
    {
      removed := 0;
      var n := head;
      ghost var s := elems;
      p := Progress(0, []);
      while n != null
        invariant WalkedTo(n, s, p) && Trimmed(s, p, removed, predicate_) && Repr == old(Repr)
        decreases |s| - p.done
      {
        n, removed, p := RemoveRound(n, predicate_, removed, s, p);
      }
    }

    /** Removes every element satisfying the predicate, in one walk. */
    method RemoveFunc(predicate_: T -> bool) returns (removed: nat)
      requires Valid()
      modifies this, Repr
      ensures Valid() && Repr == old(Repr)
      ensures elems == Rejected(old(elems), predicate_)
      ensures removed == |old(elems)| - |elems|
    {
      ghost var s := elems;
      ghost var p;
      removed, p := RemoveWalk(predicate_);
      assert |nodes| == |elems|;
      WalkedOut(p.kept, s, p.done);
    }

    // ---------- Queries ----------

    method ToSlice() returns (out: seq<T>)
      requires Valid()
      ensures out == elems
    {
      out := [];
      var n := head;
      while n != null
        invariant |out| <= |nodes| && out == elems[..|out|]
        invariant n == if |out| < |nodes| then nodes[|out|] else null
        decreases |nodes| - |out|
      {
        out := out + [n.value];
        n := n.next;
      }
    }

    /** What iterating backwards from the tail yields. */
    method Reversed() returns (out: seq<T>)
      requires Valid()
      ensures |out| == |elems| && forall i :: 0 <= i < |out| ==> out[i] == elems[|elems| - 1 - i]
    {
      out := [];
      var n := tail;
      while n != null
        invariant |out| <= |nodes|
        invariant n == if |out| < |nodes| then nodes[|nodes| - 1 - |out|] else null
        invariant forall i :: 0 <= i < |out| ==> out[i] == elems[|elems| - 1 - i]
        decreases |nodes| - |out|
      {
        out := out + [n.value];
        n := n.prev;
      }
    }

    method IndexOf(element: T, eq: Equaler<T>) returns (i: int)
      requires Valid()
      ensures if i == -1 then forall j :: 0 <= j < |elems| ==> !eq(elems[j], element)
              else IsFirst(elems, i, element, eq)
    {
      i := 0;
      var n := head;
      while n != null
        invariant 0 <= i <= |nodes| && n == if i < |nodes| then nodes[i] else null
        invariant forall j :: 0 <= j < i ==> !eq(elems[j], element)
        decreases |nodes| - i
      {
        if eq(n.value, element) {
          return;
        }
        i := i + 1;
        n := n.next;
      }
      i := -1;
    }

    method LastIndexOf(element: T, eq: Equaler<T>) returns (i: int)
      requires Valid()
      ensures -1 <= i < |elems| && (i >= 0 ==> eq(elems[i], element))
      ensures forall j :: i < j < |elems| ==> !eq(elems[j], element)
    {
      i := size - 1;
      var n := tail;
      while n != null
        invariant -1 <= i < |nodes| && n == if i >= 0 then nodes[i] else null
        invariant forall j :: i < j < |elems| ==> !eq(elems[j], element)
        decreases i
      {
        if eq(n.value, element) {
          return;
        }
        i := i - 1;
        n := n.prev;
      }
      i := -1;
    }

    // ---------- Splicing ----------

    /** The list while a batch is being spliced in: the left part, which ends at prev, and the
        right part are each linked, and nothing joins them yet. */
    ghost predicate Splicing(x: Splice<T>, prev: Node?<T>)
      reads this, Repr, x.left, x.right
    {
      match x
      case Splice(left, right, before, after) =>
        && NoDup(left) && NoDup(right) && (forall n :: n in left ==> n !in right)
        && (forall n :: n in left ==> n in Repr) && (forall n :: n in right ==> n in Repr)
        && Linked(left) && Linked(right) && Holds(left, before) && Holds(right, after)
        && prev == (if left == [] then null else left[|left| - 1])
        && (left != [] ==> head == left[0] && head.prev == null)
        && (right != [] ==> tail == right[|right| - 1] && tail.next == null)
    }

    /** Appends one new node to the left part. */
    method SpliceOne(e: T, prev: Node?<T>, ghost x: Splice<T>) returns (n: Node<T>, ghost x': Splice<T>)
      requires Splicing(x, prev)
      modifies this`head, this`Repr, Repr
      ensures Splicing(x', n) && fresh(Repr - old(Repr))
      ensures x' == Splice(x.left + [n], x.right, x.before + [e], x.after)
    {
      assert prev != null ==> prev in x.left;
      n := new Node(e, prev, null);
      if prev != null {
        prev.next := n;
      } else {
        head := n;
      }
      LinkedLast(x.left, n);
      x' := Splice(x.left + [n], x.right, x.before + [e], x.after);
      Repr := Repr + {n};
    }

    /** Joins the two parts. */
    method SpliceEnd(prev: Node<T>, next: Node?<T>, count: nat, ghost x: Splice<T>)
      requires Splicing(x, prev) && x.left != [] && size + count == |x.left| + |x.right|
      requires next == if x.right == [] then null else x.right[0]
      modifies this, Repr
      ensures Valid() && Repr == old(Repr) && elems == x.before + x.after
    {
      assert prev in x.left && (next != null ==> next in x.right);
      prev.next := next;
      if next != null {
        next.prev := prev;
      } else {
        tail := prev;
      }
      size := size + count;
      LinkedConcat(x.left, x.right);
      NoDupConcat(x.left, x.right);
      nodes, elems := x.left + x.right, x.before + x.after;
    }

    lemma SpliceStart(index: nat)
      requires Valid() && index <= |nodes|
      ensures Splicing(Splice(nodes[..index], nodes[index..], elems[..index], elems[index..]),
                       if index == 0 then null else nodes[index - 1])
    {
      SplitChain(nodes, index);
    }

    /** The loop of InsertAll. */
    method SpliceBatch(elements: seq<T>, prev: Node?<T>, ghost x: Splice<T>)
      returns (last: Node?<T>, ghost x': Splice<T>)
      requires Splicing(x, prev)
      modifies this`head, this`Repr, Repr
      ensures Splicing(x', last) && fresh(Repr - old(Repr)) && Extended(x, x', elements, |elements|)
    {
      last, x' := prev, x;
      for k := 0 to |elements|
        invariant Splicing(x', last) && fresh(Repr - old(Repr)) && Extended(x, x', elements, k)
      {
        ghost var y := x';
        last, x' := SpliceOne(elements[k], last, y);
        ExtendedOne(x, y, elements, k, last);
      }
    }

    /** Inserts a batch, resolving the place once. */
    method InsertAll(index: int, elements: seq<T>) returns (ok: bool)
      requires Valid()
      modifies this, Repr
      ensures Valid() && fresh(Repr - old(Repr))
      ensures ok <==> 0 <= index <= |old(elems)|
      ensures elems == if ok then old(elems)[..index] + elements + old(elems)[index..] else old(elems)
    {
      if index < 0 || index > size {
        return false;
      }
      if |elements| == 0 {
        assert elems[..index] + elements + elems[index..] == elems;
        return true;
      }
      var next, _ := NodeAt(index);
      var prev := tail;
      if next != null {
        prev := next.prev;
      }
      SpliceStart(index);
      ghost var x := Splice(nodes[..index], nodes[index..], elems[..index], elems[index..]);
      ghost var x';
      prev, x' := SpliceBatch(elements, prev, x);
      ExtendedAll(x, x', elements);
      SpliceEnd(prev, next, |elements|, x');
      ok := true;
    }
  }

  /** A list in two parts, with their elements. */
  datatype Splice<T> = Splice(left: seq<Node<T>>, right: seq<Node<T>>, before: seq<T>, after: seq<T>)

  /** The left part has grown by nodes for the first k elements. */
  ghost predicate Extended<T>(x: Splice<T>, x': Splice<T>, elements: seq<T>, k: nat) {
    match x
    case Splice(left, right, before, after) =>
      && k <= |elements| && x'.before == before + elements[..k] && |x'.left| == |left| + k
      && x'.right == right && x'.after == after
  }

  lemma ExtendedOne<T>(x: Splice<T>, y: Splice<T>, elements: seq<T>, k: nat, n: Node<T>)
    requires Extended(x, y, elements, k) && k < |elements|
    ensures Extended(x, Splice(y.left + [n], y.right, y.before + [elements[k]], y.after), elements, k + 1)
  {
    assert elements[..k + 1] == elements[..k] + [elements[k]];
  }

  lemma ExtendedAll<T>(x: Splice<T>, x': Splice<T>, elements: seq<T>)
    requires Extended(x, x', elements, |elements|)
    ensures x'.before == x.before + elements
  {
    assert elements[..|elements|] == elements;
  }

  /** How far RemoveFunc has come: the first elements of the list, and what is left of them. */
  datatype Progress<T> = Progress(done: nat, kept: seq<T>)

  /** What RemoveFunc has kept and counted of the elements it has visited. */
  ghost predicate Trimmed<T>(s: seq<T>, p: Progress<T>, removed: int, predicate_: T -> bool) {
    match p
    case Progress(k, kept) => k <= |s| && kept == RejectedIn(s, k, predicate_) && removed == k - |kept|
  }

  lemma WalkedOut<T>(kept: seq<T>, s: seq<T>, k: nat)
    requires k <= |s| && |kept + s[k..]| <= |kept|
    ensures k == |s| && kept + s[k..] == kept
  {
  }

  lemma WalkedPast<T>(kept: seq<T>, s: seq<T>, k: nat)
    requires k < |s|
    ensures var e := kept + s[k..];
            && e[|kept|] == s[k]
            && e[..|kept|] + e[|kept| + 1..] == kept + s[k + 1..]
            && e == kept + [s[k]] + s[k + 1..]
  {
  }
}
