/**
 The lock-free list of lockfreelist.go run by one thread, on real node objects. Dead nodes
 stay in the chain; the list stands for the sequence of its live elements. The ghost counter
 misses counts failed CASes: run alone, no operation ever adds to it.
 */
module LockFreeSequential {
  import opened Common

  /** A boxed element; a node's state points at one, or at nothing once the node is dead. */
  class Box<T> {
    const value: T

    constructor (value: T)
      ensures this.value == value
    {
      this.value := value;
    }
  }

  class Node<T> {
    var state: Box?<T>
    var next: Node?<T>

    constructor (state: Box?<T>)
      ensures this.state == state && next == null
    {
      this.state, next := state, null;
    }
  }

  // ---------- What the cells of a chain stand for ----------

  function Value<T>(b: Box?<T>): seq<T> {
    if b == null then [] else [b.value]
  }

  /** The live elements among the first n cells. */
  function Values<T>(cells: seq<Box?<T>>, n: nat): seq<T>
    requires n <= |cells|
  {
    if n == 0 then [] else Values(cells, n - 1) + Value(cells[n - 1])
  }

  function Live<T>(cells: seq<Box?<T>>): seq<T> {
    Values(cells, |cells|)
  }

  lemma {:induction false} ValuesPrefix<T>(c: seq<Box?<T>>, d: seq<Box?<T>>, n: nat)
    requires n <= |c| && n <= |d| && forall i :: 0 <= i < n ==> c[i] == d[i]
    ensures Values(c, n) == Values(d, n)
  {
    if n > 0 {
      ValuesPrefix(c, d, n - 1);
    }
  }

  lemma {:induction false} ValuesConcat<T>(a: seq<Box?<T>>, b: seq<Box?<T>>, m: nat)
    requires m <= |b|
    ensures Values(a + b, |a| + m) == Live(a) + Values(b, m)
  {
    if m == 0 {
      ValuesPrefix(a + b, a, |a|);
    } else {
      ValuesConcat(a, b, m - 1);
      assert (a + b)[|a| + m - 1] == b[m - 1];
    }
  }

  /** Writing cell k, which is live, changes the element with as many live ones before it. */
  lemma {:induction false} ValuesUpdate<T>(cells: seq<Box?<T>>, k: nat, b: Box?<T>, n: nat)
    requires k < n <= |cells| && cells[k] != null
    ensures var s, i := Values(cells, n), |Values(cells, k)|;
            && i < |s| && s[i] == cells[k].value
            && Values(cells[k := b], n) == s[..i] + Value(b) + s[i + 1..]
  {
    if n == k + 1 {
      ValuesPrefix(cells, cells[k := b], k);
    } else {
      ValuesUpdate(cells, k, b, n - 1);
      var s, i, t := Values(cells, n - 1), |Values(cells, k)|, Value(cells[n - 1]);
      Appended(s, i, Value(b), t);
      assert Values(cells, n) == s + t;
      assert Values(cells[k := b], n) == Values(cells[k := b], n - 1) + t;
    }
  }

  lemma Appended<X>(s: seq<X>, i: nat, b: seq<X>, t: seq<X>)
    requires i < |s|
    ensures (s[..i] + b + s[i + 1..]) + t == (s + t)[..i] + b + (s + t)[i + 1..] && (s + t)[i] == s[i]
  {
  }

  lemma LiveAt<T>(cells: seq<Box?<T>>, k: nat)
    requires k < |cells| && cells[k] != null
    ensures |Values(cells, k)| < |Live(cells)| && Live(cells)[|Values(cells, k)|] == cells[k].value
  {
    ValuesUpdate(cells, k, cells[k], |cells|);
  }

  lemma {:induction false} ValuesGrow<T>(cells: seq<Box?<T>>, k: nat, n: nat)
    requires k <= n <= |cells|
    ensures Values(cells, k) <= Values(cells, n)
  {
    if k < n {
      ValuesGrow(cells, k, n - 1);
    }
  }

  lemma LiveOne<T>(b: Box?<T>)
    ensures Live([b]) == Value(b)
  {
    assert Values([b], 0) == [];
  }

  lemma LiveParts<T>(a: seq<Box?<T>>, b: seq<Box?<T>>, c: seq<Box?<T>>)
    ensures Live(a + b + c) == Live(a) + Live(b) + Live(c)
  {
    ValuesConcat(a + b, c, |c|);
    ValuesConcat(a, b, |b|);
  }

  /** New cells after those of a put their elements after the live ones among those. */
  lemma ValuesInsert<T>(a: seq<Box?<T>>, boxes: seq<Box?<T>>, c: seq<Box?<T>>)
    ensures Values(a + c, |a|) == Live(a)
    ensures Live(a + c) == Live(a) + Live(c) && Live(a + boxes + c) == Live(a) + Live(boxes) + Live(c)
  {
    LiveParts(a, boxes, c);
    ValuesConcat(a, c, |c|);
    ValuesPrefix(a + c, a, |a|);
  }

  lemma InsertedAt<T>(cells: seq<Box?<T>>, k: nat, b: Box<T>)
    requires k <= |cells|
    ensures var s, i := Live(cells), |Values(cells, k)|;
            i <= |s| && Live(cells[..k] + [b] + cells[k..]) == s[..i] + [b.value] + s[i..]
  {
    var a, c := cells[..k], cells[k..];
    assert cells == a + c;
    ValuesInsert(a, [b], c);
    LiveOne(b);
    Between(Live(a), [b.value], Live(c));
  }

  lemma Between<X>(a: seq<X>, b: seq<X>, c: seq<X>)
    ensures a + b + c == (a + c)[..|a|] + b + (a + c)[|a|..]
  {
  }

  // ---------- Chains ----------

  ghost function After<T>(ns: seq<Node<T>>, i: int, end: Node?<T>): Node?<T>
    requires 0 <= i < |ns|
  {
    if i + 1 < |ns| then ns[i + 1] else end
  }

  ghost predicate Linked<T>(ns: seq<Node<T>>, end: Node?<T>)
    reads ns
  {
    forall i {:trigger ns[i].next} :: 0 <= i < |ns| ==> ns[i].next == After(ns, i, end)
  }

  ghost predicate Held<T>(ns: seq<Node<T>>, cells: seq<Box?<T>>)
    reads ns
  {
    |ns| == |cells| && forall i {:trigger ns[i].state} :: 0 <= i < |ns| ==> ns[i].state == cells[i]
  }

  ghost predicate Within<T>(ns: seq<Node<T>>, r: set<Node<T>>) {
    forall i :: 0 <= i < |ns| ==> ns[i] in r
  }

  /** Joining a chain to a place of another, the link to it having been made. */
  lemma LinkedSplice<T>(ns: seq<Node<T>>, end: Node?<T>, k: nat, batch: seq<Node<T>>)
    requires k < |ns| && batch != [] && Linked(batch, After(ns, k, end)) && ns[k].next == batch[0]
    requires forall i {:trigger ns[i].next} :: 0 <= i < |ns| && i != k ==> ns[i].next == After(ns, i, end)
    ensures Linked(ns[..k + 1] + batch + ns[k + 1..], end)
  {
    var c := ns[..k + 1] + batch + ns[k + 1..];
    var b := |batch|;
    forall i {:trigger c[i].next} | 0 <= i < |c|
      ensures c[i].next == After(c, i, end)
    {
      if i <= k {
        assert c[i] == ns[i];
      } else if i <= k + b {
        assert c[i] == batch[i - k - 1];
      } else {
        assert c[i] == ns[i - b];
      }
    }
  }

  lemma NoDupSplice<T>(ns: seq<Node<T>>, k: nat, batch: seq<Node<T>>)
    requires k < |ns| && NoDup(ns) && NoDup(batch) && forall n :: n in batch ==> n !in ns
    ensures NoDup(ns[..k + 1] + batch + ns[k + 1..])
  {
    var c := ns[..k + 1] + batch + ns[k + 1..];
    var b := |batch|;
    forall i, j | 0 <= i < j < |c|
      ensures c[i] != c[j]
    {
      assert k < i <= k + b ==> c[i] in batch;
      assert k < j <= k + b ==> c[j] in batch;
      assert i <= k ==> c[i] == ns[i];
      assert i > k + b ==> c[i] == ns[i - b];
      assert j <= k ==> c[j] == ns[j];
      assert j > k + b ==> c[j] == ns[j - b];
    }
  }

  lemma HeldSplice<T>(ns: seq<Node<T>>, cells: seq<Box?<T>>, k: nat, batch: seq<Node<T>>, boxes: seq<Box?<T>>)
    requires k < |ns| && Held(ns, cells) && Held(batch, boxes)
    ensures Held(ns[..k + 1] + batch + ns[k + 1..], cells[..k + 1] + boxes + cells[k + 1..])
  {
  }

  /** A chain of distinct nodes that ends in nil. */
  ghost predicate Private<T>(ns: seq<Node<T>>, cells: seq<Box?<T>>)
    reads ns
  {
    NoDup(ns) && Linked(ns, null) && Held(ns, cells)
  }

  class LockFreeList<T> {
    const head: Node<T>
    const tail: Node<T>
    // The head sentinel and the nodes after it up to the tail sentinel, and their states.
    ghost var nodes: seq<Node<T>>
    ghost var cells: seq<Box?<T>>
    ghost var Repr: set<Node<T>>
    ghost var misses: nat

    ghost predicate Valid()
      reads this, Repr
    {
      && nodes != [] && nodes[0] == head && cells != [] && cells[0] == null
      && Within(nodes, Repr) && tail in Repr && tail !in nodes
      && NoDup(nodes) && Linked(nodes, tail) && Held(nodes, cells)
    }

    /** The sequence the list stands for. */
    ghost function Contents(): seq<T>
      reads this
    {
      Live(cells)
    }

    /** Where a walk that has passed k nodes is. */
    ghost function At(k: nat): Node<T>
      reads this
    {
      if k < |nodes| then nodes[k] else tail
    }

    constructor ()
      ensures Valid() && fresh(Repr) && Contents() == [] && misses == 0
    {
      head := new Node(null);
      tail := new Node(null);
      new;
      head.next := tail;
      nodes, cells, Repr, misses := [head], [null], {head, tail}, 0;
      LiveOne<T>(null);
    }

    // ---------- Compare-and-swap ----------

    method CasNext(n: Node<T>, seen: Node?<T>, to: Node?<T>) returns (ok: bool)
      modifies n`next, this`misses
      ensures ok == (old(n.next) == seen)
      ensures n.next == (if ok then to else old(n.next)) && misses == old(misses) + if ok then 0 else 1
    {
      ok := n.next == seen;
      if ok {
        n.next := to;
      } else {
        misses := misses + 1;
      }
    }

    method CasState(n: Node<T>, seen: Box?<T>, to: Box?<T>) returns (ok: bool)
      modifies n`state, this`misses
      ensures ok == (old(n.state) == seen)
      ensures n.state == (if ok then to else old(n.state)) && misses == old(misses) + if ok then 0 else 1
    {
      ok := n.state == seen;
      if ok {
        n.state := to;
      } else {
        misses := misses + 1;
      }
    }

    /** Swaps the state of the k-th node of the chain. */
    method Swap(n: Node<T>, v: Box<T>, to: Box?<T>, ghost k: nat) returns (ok: bool)
      requires Valid() && k < |nodes| && n == nodes[k] && n.state == v
      modifies n`state, this`misses, this`cells
      ensures Valid() && ok && misses == old(misses)
      ensures |Values(old(cells), k)| < |old(Contents())| && old(Contents())[|Values(old(cells), k)|] == v.value
      ensures var s, i := old(Contents()), |Values(old(cells), k)|;
              Contents() == s[..i] + Value(to) + s[i + 1..]
      ensures cells == old(cells)[k := to]
    {
      ok := CasState(n, v, to);
      ValuesUpdate(cells, k, to, |cells|);
      cells := cells[k := to];
    }

    /** Marks the k-th node dead. */
    method Kill(n: Node<T>, v: Box<T>, ghost k: nat) returns (ok: bool)
      requires Valid() && k < |nodes| && n == nodes[k] && n.state == v
      modifies n`state, this`misses, this`cells
      ensures Valid() && ok && misses == old(misses) && cells == old(cells)[k := null]
      ensures var s, i := old(Contents()), |Values(old(cells), k)|;
              i < |s| && s[i] == v.value && Contents() == s[..i] + s[i + 1..]
    {
      ok := Swap(n, v, null, k);
    }

    // ---------- Queries ----------

    method Size() returns (n: nat)
      requires Valid()
      ensures n == |Contents()|
    {
      n := 0;
      var curr: Node?<T> := head.next;
      ghost var k := 1;
      while curr != null && curr != tail
        invariant 1 <= k <= |nodes| && curr == At(k) && n == |Values(cells, k)|
        decreases |nodes| - k
      {
        if curr.state != null {
          n := n + 1;
        }
        curr := curr.next;
        k := k + 1;
      }
    }

    method ToSlice() returns (out: seq<T>)
      requires Valid()
      ensures out == Contents()
    {
      out := [];
      var curr: Node?<T> := head.next;
      ghost var k := 1;
      while curr != null && curr != tail
        invariant 1 <= k <= |nodes| && curr == At(k) && out == Values(cells, k)
        decreases |nodes| - k
      {
        var v := curr.state;
        if v != null {
          out := out + [v.value];
        }
        curr := curr.next;
        k := k + 1;
      }
    }

    /** The node that holds element index, and how many nodes come before it. */
    method Locate(index: int) returns (n: Node?<T>, ghost k: nat)
      requires Valid() && index >= 0
      ensures n == null <==> index >= |Contents()|
      ensures n != null ==> 0 < k < |nodes| && n == nodes[k] && cells[k] != null && |Values(cells, k)| == index
    {
      var i := 0;
      var curr: Node?<T> := head.next;
      k := 1;
      while curr != null && curr != tail
        invariant 1 <= k <= |nodes| && curr == At(k) && i == |Values(cells, k)| <= index
        decreases |nodes| - k
      {
        if curr.state != null {
          if i == index {
            LiveAt(cells, k);
            return curr, k;
          }
          i := i + 1;
        }
        curr := curr.next;
        k := k + 1;
      }
      n := null;
    }

    method Get(index: int) returns (r: Option<T>)
      requires Valid()
      ensures r == if 0 <= index < |Contents()| then Some(Contents()[index]) else None
    {
      if index < 0 {
        return None;
      }
      var n, k := Locate(index);
      if n == null {
        return None;
      }
      LiveAt(cells, k);
      return Some(n.state.value);
    }

    // ---------- Adding ----------

    /** Links a private chain of new nodes for the elements. */
    method BuildChain(elements: seq<T>)
      returns (first: Node<T>, last: Node<T>, ghost batch: seq<Node<T>>, ghost boxes: seq<Box?<T>>)
      requires elements != []
      ensures batch != [] && first == batch[0] && last == batch[|batch| - 1] && fresh(batch)
      ensures Private(batch, boxes) && Live(boxes) == elements
    {
      first, batch, boxes := StartChain(elements[0]);
      last := first;
      for j := 1 to |elements|
        invariant batch != [] && first == batch[0] && last == batch[|batch| - 1] && fresh(batch)
        invariant Private(batch, boxes) && Live(boxes) == elements[..j]
      {
        last, batch, boxes := Extend(last, elements[j], batch, boxes);
        assert elements[..j + 1] == elements[..j] + [elements[j]];
      }
      assert elements[..|elements|] == elements;
    }

    /** A private chain of one node. */
    method StartChain(e: T) returns (n: Node<T>, ghost batch: seq<Node<T>>, ghost boxes: seq<Box?<T>>)
      ensures fresh(n) && batch == [n] && Private(batch, boxes) && Live(boxes) == [e]
    {
      var b := new Box(e);
      n := new Node(b);
      batch, boxes := [n], [b];
      LiveOne(b);
    }

    /** One more node at the end of a private chain. */
    method Extend(last: Node<T>, e: T, ghost batch: seq<Node<T>>, ghost boxes: seq<Box?<T>>)
      returns (n: Node<T>, ghost batch': seq<Node<T>>, ghost boxes': seq<Box?<T>>)
      requires Private(batch, boxes) && batch != [] && last == batch[|batch| - 1]
      modifies last`next
      ensures fresh(n) && batch' == batch + [n] && Private(batch', boxes') && Live(boxes') == Live(boxes) + [e]
    {
      var b := new Box(e);
      n := new Node(b);
      last.next := n;
      ValuesPrefix(boxes + [b], boxes, |boxes|);
      batch', boxes' := batch + [n], boxes + [b];
    }

    /** Puts a private chain into the list after the k-th node, in one CAS. */
    method Splice(pred: Node<T>, first: Node<T>, seen: Node<T>, ghost k: nat, ghost batch: seq<Node<T>>,
                  ghost boxes: seq<Box?<T>>) returns (ok: bool)
      requires Valid() && k < |nodes| && pred == nodes[k] && seen == At(k + 1)
      requires batch != [] && first == batch[0] && NoDup(batch) && forall n :: n in batch ==> n !in Repr
      requires Linked(batch, seen) && Held(batch, boxes)
      modifies pred`next, this`misses, this`nodes, this`cells, this`Repr
      ensures ok && misses == old(misses) && Valid() && Repr == old(Repr) + set n | n in batch
      ensures cells == old(cells)[..k + 1] + boxes + old(cells)[k + 1..]
    {
      ok := CasNext(pred, seen, first);
      LinkedSplice(nodes, tail, k, batch);
      NoDupSplice(nodes, k, batch);
      HeldSplice(nodes, cells, k, batch, boxes);
      nodes := nodes[..k + 1] + batch + nodes[k + 1..];
      cells := cells[..k + 1] + boxes + cells[k + 1..];
      Repr := Repr + set n | n in batch;
    }

    /** Walks to the node before the tail sentinel. */
    method LastNode() returns (pred: Node<T>, ghost k: nat)
      requires Valid()
      ensures k == |nodes| - 1 && pred == nodes[k]
    {
      pred := head;
      var curr: Node?<T> := pred.next;
      k := 0;
      while curr != null && curr != tail
        invariant 0 <= k < |nodes| && pred == nodes[k] && curr == At(k + 1)
        decreases |nodes| - k
      {
        pred := curr;
        curr := curr.next;
        k := k + 1;
      }
    }

    /** One attempt to attach a private chain. */
    method TryAppend(first: Node<T>, ghost batch: seq<Node<T>>, ghost boxes: seq<Box?<T>>) returns (ok: bool)
      requires Valid() && batch != [] && first == batch[0]
      requires NoDup(batch) && Linked(batch, tail) && Held(batch, boxes) && forall n :: n in batch ==> n !in Repr
      modifies Repr, this`misses, this`nodes, this`cells, this`Repr
      ensures ok && Valid() && misses == old(misses) && Repr == old(Repr) + set n | n in batch
      ensures Contents() == old(Contents()) + Live(boxes)
    {
      var pred, k := LastNode();
      ValuesConcat(cells, boxes, |boxes|);
      assert cells[..k + 1] + boxes + cells[k + 1..] == cells + boxes;
      ok := Splice(pred, first, tail, k, batch, boxes);
    }

    /** Attaches the private chain from first to last before the tail sentinel. */
    method AppendChain(first: Node<T>, last: Node<T>, ghost batch: seq<Node<T>>, ghost boxes: seq<Box?<T>>)
      requires Valid() && batch != [] && first == batch[0] && last == batch[|batch| - 1]
      requires Private(batch, boxes) && forall n :: n in batch ==> n !in Repr
      modifies this, Repr, last`next
      ensures Valid() && misses == old(misses) && Repr == old(Repr) + set n | n in batch
      ensures Contents() == old(Contents()) + Live(boxes)
    {
      last.next := tail;
      var done := false;
      while !done
        invariant Valid() && misses == old(misses)
        invariant !done ==> cells == old(cells) && nodes == old(nodes) && Repr == old(Repr) && Linked(batch, tail)
        invariant done ==> Contents() == old(Contents()) + Live(boxes) && Repr == old(Repr) + set n | n in batch
        decreases !done
      {
        done := TryAppend(first, batch, boxes);
      }
    }

    method Add(element: T)
      requires Valid()
      modifies this, Repr
      ensures Valid() && fresh(Repr - old(Repr)) && misses == old(misses) && Contents() == old(Contents()) + [element]
    {
      var first, last, batch, boxes := BuildChain([element]);
      AppendChain(first, last, batch, boxes);
    }

    method AddAll(elements: seq<T>)
      requires Valid()
      modifies this, Repr
      ensures Valid() && fresh(Repr - old(Repr)) && misses == old(misses) && Contents() == old(Contents()) + elements
    {
      if |elements| == 0 {
        return;
      }
      var first, last, batch, boxes := BuildChain(elements);
      AppendChain(first, last, batch, boxes);
    }

    /** Puts the node in after the k-th one. */
    method InsertAfter(pred: Node<T>, node: Node<T>, element: T, ghost k: nat) returns (ok: bool)
      requires Valid() && k < |nodes| && pred == nodes[k] && node !in Repr
      requires node.state != null && node.state.value == element
      modifies node`next, pred`next, this`misses, this`nodes, this`cells, this`Repr
      ensures ok && misses == old(misses) && Valid() && Repr == old(Repr) + {node}
      ensures var s, i := old(Contents()), |Values(old(cells), k + 1)|;
              i <= |s| && Contents() == s[..i] + [element] + s[i..]
    {
      var next := pred.next;
      node.next := next;
      InsertedAt(cells, k + 1, node.state);
      ok := Splice(pred, node, next, k, [node], [node.state]);
    }

    /** An attempt of InsertAtHead. */
    method TryInsertAtHead(node: Node<T>, element: T) returns (ok: bool)
      requires Valid() && node !in Repr && node.state != null && node.state.value == element
      modifies node`next, head`next, this`misses, this`nodes, this`cells, this`Repr
      ensures ok && misses == old(misses) && Valid() && Repr == old(Repr) + {node}
      ensures Contents() == [element] + old(Contents())
    {
      assert Values(cells, 1) == [];
      ok := InsertAfter(head, node, element, 0);
    }

    method InsertAtHead(element: T) returns (ok: bool)
      requires Valid()
      modifies this, Repr
      ensures ok && Valid() && fresh(Repr - old(Repr)) && misses == old(misses)
      ensures Contents() == [element] + old(Contents())
    {
      var box := new Box(element);
      var node := new Node(box);
      ok := false;
      while !ok
        invariant Valid() && misses == old(misses) && node.state == box && box.value == element
        invariant !ok ==> cells == old(cells) && nodes == old(nodes) && Repr == old(Repr)
        invariant ok ==> Contents() == [element] + old(Contents()) && Repr == old(Repr) + {node}
        decreases !ok
      {
        ok := TryInsertAtHead(node, element);
      }
    }

    /** An attempt of Insert: finds the live node before the place, if there is one, and tries
        its CAS. */
    method TryInsert(index: int, node: Node<T>, element: T) returns (found: bool, ok: bool)
      requires Valid() && index > 0 && node !in Repr && node.state != null && node.state.value == element
      modifies node`next, this`misses, this`nodes, this`cells, this`Repr, Repr
      ensures Valid() && misses == old(misses) && found == ok == (index <= |old(Contents())|)
      ensures if ok then Contents() == old(Contents())[..index] + [element] + old(Contents())[index..] &&
              Repr == old(Repr) + {node}
              else cells == old(cells) && Repr == old(Repr)
    {
      var pred, k := Locate(index - 1);
      if pred == null {
        return false, false;
      }
      found := true;
      ok := InsertAfter(pred, node, element, k);
    }

    /** Succeeds for the indexes 0 to Size, and for no other. */
    method Insert(index: int, element: T) returns (ok: bool)
      requires Valid()
      modifies this, Repr
      ensures Valid() && fresh(Repr - old(Repr)) && misses == old(misses)
      ensures ok <==> 0 <= index <= |old(Contents())|
      ensures Contents() == if ok then old(Contents())[..index] + [element] + old(Contents())[index..]
              else old(Contents())
    {
      if index < 0 {
        return false;
      }
      if index == 0 {
        ok := InsertAtHead(element);
        return;
      }
      var box := new Box(element);
      var node := new Node(box);
      ok := false;
      var found := true;
      while found && !ok
        invariant Valid() && misses == old(misses) && (found && !ok ==> node.state == box)
        invariant !ok ==> cells == old(cells) && Repr == old(Repr)
        invariant !found ==> !ok && index > |old(Contents())|
        invariant ok ==> index <= |old(Contents())| && Repr == old(Repr) + {node}
        invariant ok ==> Contents() == old(Contents())[..index] + [element] + old(Contents())[index..]
        decreases found && !ok
      {
        found, ok := TryInsert(index, node, element);
      }
    }

    /** Inserts one by one, last element first. An empty batch succeeds at any index. */
    method InsertAll(index: int, elements: seq<T>) returns (ok: bool)
      requires Valid()
      modifies this, Repr
      ensures Valid() && fresh(Repr - old(Repr)) && misses == old(misses)
      ensures ok <==> elements == [] || 0 <= index <= |old(Contents())|
      ensures Contents() == if ok && elements != [] then old(Contents())[..index] + elements + old(Contents())[index..]
                            else old(Contents())
    {
      if |elements| == 0 {
        return true;
      }
      ghost var s := Contents();
      for j := |elements| downto 0
        invariant Valid() && fresh(Repr - old(Repr)) && misses == old(misses)
        invariant j == |elements| ==> Contents() == s
        invariant j < |elements| ==> 0 <= index <= |s| && Contents() == s[..index] + elements[j..] + s[index..]
      {
        ghost var t := Contents();
        ok := Insert(index, elements[j]);
        if !ok {
          return false;
        }
        InsertedBefore(s, t, index, elements, j);
      }
      assert elements[0..] == elements;
      ok := true;
    }

    // ---------- Writing and removing ----------

    method Set(index: int, element: T) returns (r: Option<T>)
      requires Valid()
      modifies this, Repr
      ensures Valid() && Repr == old(Repr) && misses == old(misses)
      ensures r == if 0 <= index < |old(Contents())| then Some(old(Contents())[index]) else None
      ensures Contents() == if r.Some? then old(Contents())[index := element] else old(Contents())
    {
      if index < 0 {
        return None;
      }
      var box := new Box(element);
      r := None;
      var done := false;
      while !done
        invariant Valid() && Repr == old(Repr) && misses == old(misses) && box.value == element
        invariant !done ==> cells == old(cells) && nodes == old(nodes) && r == None
        invariant done ==> r == if 0 <= index < |old(Contents())| then Some(old(Contents())[index]) else None
        invariant done ==> Contents() == if r.Some? then old(Contents())[index := element] else old(Contents())
        decreases !done
      {
        var curr, k := Locate(index);
        if curr == null {
          done := true;
        } else {
          var v := curr.state;
          done := Swap(curr, v, box, k);
          r := Some(v.value);
        }
      }
    }

    method RemoveAt(index: int) returns (r: Option<T>)
      requires Valid()
      modifies this, Repr
      ensures Valid() && Repr == old(Repr) && misses == old(misses)
      ensures r == if 0 <= index < |old(Contents())| then Some(old(Contents())[index]) else None
      ensures Contents() == if r.Some? then old(Contents())[..index] + old(Contents())[index + 1..] else old(Contents())
    {
      if index < 0 {
        return None;
      }
      r := None;
      var done := false;
      while !done
        invariant Valid() && Repr == old(Repr) && misses == old(misses)
        invariant !done ==> cells == old(cells) && nodes == old(nodes) && r == None
        invariant done ==> r == if 0 <= index < |old(Contents())| then Some(old(Contents())[index]) else None
        invariant done ==> Contents() == if r.Some? then old(Contents())[..index] + old(Contents())[index + 1..]
                  else old(Contents())
        decreases !done
      {
        var curr, k := Locate(index);
        if curr == null {
          done := true;
        } else {
          var v := curr.state;
          done := Kill(curr, v, k);
          r := Some(v.value);
        }
      }
    }

    method RemoveFirst() returns (r: Option<T>)
      requires Valid()
      modifies this, Repr
      ensures Valid() && Repr == old(Repr) && misses == old(misses)
      ensures if old(Contents()) == [] then r == None && Contents() == []
              else r == Some(old(Contents())[0]) && Contents() == old(Contents())[1..]
    {
      var curr: Node?<T> := head.next;
      ghost var k := 1;
      while curr != null && curr != tail
        invariant Valid() && Repr == old(Repr) && misses == old(misses) && cells == old(cells)
        invariant 1 <= k <= |nodes| && curr == At(k) && Values(cells, k) == []
        decreases |nodes| - k
      {
        var v := curr.state;
        if v != null {
          var _ := Kill(curr, v, k);
          return Some(v.value);
        }
        curr := curr.next;
        k := k + 1;
      }
      return None;
    }

    method Remove(element: T, eq: Equaler<T>) returns (ok: bool)
      requires Valid()
      modifies this, Repr
      ensures Valid() && Repr == old(Repr) && misses == old(misses)
      ensures !ok ==> Unequal(old(Contents()), element, eq) && Contents() == old(Contents())
      ensures ok ==> exists i :: IsFirst(old(Contents()), i, element, eq) &&
                                 Contents() == old(Contents())[..i] + old(Contents())[i + 1..]
    {
      var curr: Node?<T> := head.next;
      ghost var k := 1;
      while curr != null && curr != tail
        invariant Valid() && Repr == old(Repr) && misses == old(misses) && cells == old(cells)
        invariant 1 <= k <= |nodes| && curr == At(k)
        invariant Unequal(Values(cells, k), element, eq)
        decreases |nodes| - k
      {
        var v := curr.state;
        FirstOrNot(cells, k, element, eq);
        if v != null && eq(v.value, element) {
          ghost var s, i := Contents(), |Values(cells, k)|;
          ok := Kill(curr, v, k);
          assert s == old(Contents()) && IsFirst(s, i, element, eq) && Contents() == s[..i] + s[i + 1..];
          return;
        }
        curr := curr.next;
        k := k + 1;
      }
      return false;
    }

    method RemoveLast() returns (r: Option<T>)
      requires Valid()
      modifies this, Repr
      ensures Valid() && Repr == old(Repr) && misses == old(misses)
      ensures if old(Contents()) == [] then r == None && Contents() == []
              else
                && r == Some(old(Contents())[|old(Contents())| - 1])
                && Contents() == old(Contents())[..|old(Contents())| - 1]
    {
      r := None;
      var done := false;
      while !done
        invariant Valid() && Repr == old(Repr) && misses == old(misses)
        invariant !done ==> cells == old(cells) && nodes == old(nodes) && r == None
        invariant done ==> if old(Contents()) == [] then r == None && Contents() == []
          else
            && r == Some(old(Contents())[|old(Contents())| - 1])
            && Contents() == old(Contents())[..|old(Contents())| - 1]
        decreases !done
      {
        var last, k := LastLive();
        if last == null {
          done := true;
        } else {
          var v := last.state;
          done := Kill(last, v, k);
          r := Some(v.value);
        }
      }
    }

    /** The walk of RemoveLast: the last live node. */
    method LastLive() returns (last: Node?<T>, ghost at: nat)
      requires Valid()
      ensures last == null <==> Contents() == []
      ensures last != null ==>
              at < |nodes| && last == nodes[at] && last.state != null && |Values(cells, at)| == |Contents()| - 1
    {
      last, at := null, 0;
      var curr: Node?<T> := head.next;
      ghost var k, live := 1, 0;
      while curr != null && curr != tail
        invariant 1 <= k <= |nodes| && curr == At(k) && live == |Values(cells, k)|
        invariant last == null <==> live == 0
        invariant last != null ==>
                  at < |nodes| && last == nodes[at] && cells[at] != null && |Values(cells, at)| == live - 1
        decreases |nodes| - k
      {
        if curr.state != null {
          last, at, live := curr, k, live + 1;
        }
        curr := curr.next;
        k := k + 1;
      }
    }

    /** Kills the k-th node if it is live and its element satisfies the predicate. */
    method KillIf(n: Node<T>, predicate_: T -> bool, ghost k: nat) returns (gone: bool)
      requires Valid() && k < |nodes| && n == nodes[k]
      modifies n`state, this`misses, this`cells
      ensures Valid() && misses == old(misses)
      ensures gone == (old(cells)[k] != null && predicate_(old(cells)[k].value))
      ensures cells == if gone then old(cells)[k := null] else old(cells)
    {
      var v := n.state;
      gone := false;
      if v != null && predicate_(v.value) {
        gone := Kill(n, v, k);
      }
    }

    method RemoveFunc(predicate_: T -> bool) returns (removed: nat)
      requires Valid()
      modifies this, Repr
      ensures Valid() && Repr == old(Repr) && misses == old(misses)
      ensures Contents() == Rejected(old(Contents()), predicate_)
      ensures removed == |old(Contents())| - |Contents()|
    {
      removed := 0;
      var curr: Node?<T> := head.next;
      ghost var k, was := 1, cells;
      while curr != null && curr != tail
        invariant Valid() && Repr == old(Repr) && misses == old(misses) && nodes == old(nodes)
        invariant 1 <= k <= |nodes| && curr == At(k) && Trimmed(was, cells, k, removed, predicate_)
        decreases |nodes| - k
      {
        RejectedCell(was, cells, k, removed, predicate_);
        var gone := KillIf(curr, predicate_, k);
        if gone {
          removed := removed + 1;
        }
        curr := curr.next;
        k := k + 1;
      }
    }

    /** Cuts the whole chain off in one CAS. */
    method Clear()
      requires Valid()
      modifies this, Repr
      ensures Valid() && Repr == old(Repr) && misses == old(misses) && Contents() == []
    {
      var done := false;
      while !done
        invariant Valid() && Repr == old(Repr) && misses == old(misses)
        invariant !done ==> cells == old(cells) && nodes == old(nodes)
        invariant done ==> Contents() == []
        decreases !done
      {
        var first := head.next;
        done := CasNext(head, first, tail);
        nodes, cells := [head], [null];
        LiveOne<T>(null);
      }
    }

  }

  /** Cell k holds the first element equal to x, or no element before or in it is equal to x. */
  lemma FirstOrNot<T>(cells: seq<Box?<T>>, k: nat, x: T, eq: Equaler<T>)
    requires k < |cells| && Unequal(Values(cells, k), x, eq)
    ensures if cells[k] != null && eq(cells[k].value, x) then IsFirst(Live(cells), |Values(cells, k)|, x, eq)
            else Unequal(Values(cells, k + 1), x, eq)
  {
    if cells[k] != null {
      LiveAt(cells, k);
      ValuesGrow(cells, k, |cells|);
    }
  }

  lemma InsertedBefore<X>(s: seq<X>, t: seq<X>, index: int, elements: seq<X>, j: nat)
    requires 0 <= index <= |t| && j < |elements|
    requires if j + 1 == |elements| then t == s else index <= |s| && t == s[..index] + elements[j + 1..] + s[index..]
    ensures index <= |s| && t[..index] + [elements[j]] + t[index..] == s[..index] + elements[j..] + s[index..]
  {
  }

  /** From cell k on, nothing has been touched yet. */
  ghost predicate AgreeFrom<T>(c: seq<Box?<T>>, d: seq<Box?<T>>, k: nat) {
    |c| == |d| && forall j :: k <= j < |c| ==> c[j] == d[j]
  }

  /** Among the first k cells the rejected ones have been killed and counted; the others are
      as they were. */
  ghost predicate Trimmed<T>(was: seq<Box?<T>>, c: seq<Box?<T>>, k: nat, removed: int, p: T -> bool) {
    && AgreeFrom(c, was, k) && k <= |c|
    && Values(c, k) == Rejected(Values(was, k), p) && removed == |Values(was, k)| - |Values(c, k)|
  }

  lemma RejectedCell<T>(was: seq<Box?<T>>, c: seq<Box?<T>>, k: nat, removed: int, p: T -> bool)
    requires k < |was| && Trimmed(was, c, k, removed, p)
    ensures var gone := c[k] != null && p(c[k].value);
            Trimmed(was, if gone then c[k := null] else c, k + 1, if gone then removed + 1 else removed, p)
  {
    ValuesPrefix(c[k := null], c, k);
    var a := Values(was, k);
    if was[k] != null {
      RejectedOneMore(a, was[k].value, p);
    } else {
      assert Values(was, k + 1) == a && Values(c, k + 1) == Values(c, k);
    }
  }

  /** Replaces the contents, as decoding does. A receiver that was not constructed has no
      sentinels; it is null here, and is rejected. */
  method Refill<T>(l: LockFreeList?<T>, elements: seq<T>) returns (ok: bool)
    requires l != null ==> l.Valid()
    modifies if l == null then {} else {l} + l.Repr
    ensures ok == (l != null)
    ensures ok ==> l.Valid() && fresh(l.Repr - old(l.Repr)) && l.misses == old(l.misses) && l.Contents() == elements
  {
    if l == null {
      return false;
    }
    l.Clear();
    l.AddAll(elements);
    return true;
  }
}
