/**
 The head-index queue of arrayqueue.go. The slice is a backing array, of which the first
 len slots are in use and the first head of those are consumed.
 */
module ArrayQueues {
  import opened Common

  /** Slots head..len of b hold elems, every other slot of the whole backing array is zero, and
      at most half of the slots in use are consumed. */
  ghost predicate Queued<T>(b: seq<T>, head: int, len: int, elems: seq<T>, zero: T) {
    && 0 <= 2 * head <= len <= |b| && elems == b[head..len]
    && Cleared(b, 0, head, zero) && Cleared(b, len, |b|, zero)
  }

  ghost predicate Cleared<T>(b: seq<T>, from: int, to: int, zero: T) {
    0 <= from <= to <= |b| && forall p :: from <= p < to ==> b[p] == zero
  }

  class ArrayQueue<T> {
    var store: array<T>
    var len: int
    var head: int
    const zero: T
    // The elements, front to back; elements dequeued so far, and elements moved by compaction.
    ghost var elems: seq<T>
    ghost var dequeues: nat
    ghost var moves: nat

    ghost predicate Valid()
      reads this, store
    {
      Queued(store[..], head, len, elems, zero) && moves + head <= dequeues
    }

    /** The memory in use is at most twice the live elements, and compaction has moved no more
        elements than were dequeued. */
    lemma Bounds()
      requires Valid()
      ensures len <= 2 * |elems| && |elems| == len - head && moves <= dequeues
    {
    }

    constructor WithCapacity(capacity: int, zero: T)
      ensures Valid() && elems == [] && this.zero == zero && fresh(store) && dequeues == 0
    {
      this.zero := zero;
      store := new T[if capacity < 0 then 0 else capacity](_ => zero);
      len, head, elems, dequeues, moves := 0, 0, [], 0, 0;
    }

    constructor From(elements: seq<T>, zero: T)
      ensures Valid() && elems == elements && this.zero == zero && fresh(store) && dequeues == 0
    {
      this.zero := zero;
      store := new T[|elements|](i requires 0 <= i < |elements| => elements[i]);
      len, head, elems, dequeues, moves := |elements|, 0, elements, 0, 0;
    }

    method Size() returns (n: int)
      requires Valid()
      ensures n == |elems|
    {
      n := len - head;
    }

    method Clear()
      requires Valid()
      modifies this`len, this`head, this`elems, store
      ensures Valid() && elems == [] && forall p :: 0 <= p < store.Length ==> store[p] == zero
    {
      forall p | 0 <= p < len {
        store[p] := zero;
      }
      len, head, elems := 0, 0, [];
    }

    /** Moves to a larger backing array, of any size the runtime picks. */
    method Grow(need: nat)
      requires Valid() && len <= need
      modifies this`store
      ensures Valid() && fresh(store) && store.Length >= need
    {
      var capacity :| need <= capacity;
      var bigger := new T[capacity](_ => zero);
      forall k | 0 <= k < len {
        bigger[k] := store[k];
      }
      store := bigger;
    }

    /** The append built-in: in place if there is room, in a larger array if not. */
    method EnqueueAll(elements: seq<T>)
      requires Valid()
      modifies this`store, this`len, this`elems, store
      ensures Valid() && elems == old(elems) + elements && (store == old(store) || fresh(store))
    {
      if len + |elements| > store.Length {
        Grow(len + |elements|);
      }
      forall k | 0 <= k < |elements| {
        store[len + k] := elements[k];
      }
      len := len + |elements|;
      elems := elems + elements;
    }

    method Enqueue(element: T)
      requires Valid()
      modifies this`store, this`len, this`elems, store
      ensures Valid() && elems == old(elems) + [element] && (store == old(store) || fresh(store))
    {
      EnqueueAll([element]);
    }

    /** Drops the consumed slots: into a smaller array after a peak, otherwise in place. */
    method Compact()
      requires 0 <= head <= len <= store.Length && elems == store[head..len]
      requires Cleared(store[..], 0, head, zero) && Cleared(store[..], len, store.Length, zero)
      modifies this`store, this`len, this`head, this`moves, store
      ensures Queued(store[..], head, len, elems, zero) && head == 0 && (store == old(store) || fresh(store))
      ensures moves == old(moves) + if old(head) == 0 then 0 else |elems|
      ensures store.Length == if old(head) > 0 && |elems| < old(store.Length) / 4 && old(store.Length) > 64
                              then |elems| else old(store.Length)
    {
      if head == 0 {
        return;
      }
      var live := len - head;
      moves := moves + live;
      if live < store.Length / 4 && store.Length > 64 {
        var newData := new T[live](_ => zero);
        forall k | 0 <= k < live {
          newData[k] := store[head + k];
        }
        store, len, head := newData, live, 0;
        return;
      }
      forall k | 0 <= k < live {
        store[k] := store[head + k];
      }
      assert store[..live] == elems;
      forall k | live <= k < len {
        store[k] := zero;
      }
      assert store[..live] == elems;
      len, head := live, 0;
    }

    method Dequeue() returns (r: Option<T>)
      requires Valid()
      modifies this`store, this`len, this`head, this`elems, this`dequeues, this`moves, store
      ensures Valid() && (store == old(store) || fresh(store))
      ensures if old(elems) == [] then r == None && elems == [] && dequeues == old(dequeues)
              else r == Some(old(elems)[0]) && elems == old(elems)[1..] && dequeues == old(dequeues) + 1
    {
      if head >= len {
        return None;
      }
      var v := store[head];
      store[head] := zero;
      head := head + 1;
      elems, dequeues := elems[1..], dequeues + 1;
      assert elems == store[head..len];
      if head > len / 2 {
        Compact();
      }
      return Some(v);
    }

    method Peek() returns (r: Option<T>)
      requires Valid()
      ensures r == if elems == [] then None else Some(elems[0])
    {
      if head >= len {
        return None;
      }
      return Some(store[head]);
    }

    method ToSlice() returns (out: seq<T>)
      requires Valid()
      ensures out == elems
    {
      out := store[head..len];
    }
  }
}
