/**
 The circular buffer of arraydeque.go.
 */
module ArrayDeques {
  import opened Arithmetic
  import opened Common

  /** The remainder that truncates toward zero, as the source language's % does. */
  function TruncatedRemainder(n: int, m: int): int
    requires m > 0
  {
    if n >= 0 then n % m else -(-n % m)
  }

  /** mod: n brought into 0..m. */
  function Mod(n: int, m: int): (r: int)
    requires m > 0
    ensures 0 <= r < m && r == n % m
    ensures 0 <= n < m ==> r == n
    ensures m <= n < 2 * m ==> r == n - m
    ensures -m <= n < 0 ==> r == n + m
  {
    var k := TruncatedRemainder(n, m);
    ModWraps(n, m);
    if k < 0 then k + m else k
  }

  lemma ModWraps(n: int, m: int)
    requires m > 0
    ensures n < 0 ==> n % m == if -n % m == 0 then 0 else m - -n % m
    ensures 0 <= n < m ==> n % m == n
    ensures m <= n < 2 * m ==> n % m == n - m
    ensures -m <= n < 0 ==> n % m == n + m
  {
    if n < 0 {
      var q, r := -n / m, -n % m;
      assert n == -q * m - r;
      if r == 0 {
        Division(n, m, -q, 0);
      } else {
        assert n == (-q - 1) * m + (m - r);
        Division(n, m, -q - 1, m - r);
      }
      if -m <= n {
        Division(n, m, -1, n + m);
      }
    } else if n < m {
      Division(n, m, 0, n);
    } else if n < 2 * m {
      Division(n, m, 1, n - m);
    }
  }

  /** How far slot p is behind the head. */
  function Offset(p: int, head: int, cap: int): int {
    if p >= head then p - head else p - head + cap
  }

  /** What slot p holds: an element of the live window, or nothing. */
  function Slot<T>(p: int, head: int, cap: int, elems: seq<T>, zero: T): T
    requires 0 <= p < cap && 0 <= head < cap
  {
    if Offset(p, head, cap) < |elems| then elems[Offset(p, head, cap)] else zero
  }

  /** Buffer b holds elems as a circular window from head to just before tail, and zero in every
      other slot; the indices of an empty buffer are zero. */
  ghost predicate Ring<T>(b: seq<T>, head: int, tail: int, elems: seq<T>, zero: T) {
    && |elems| <= |b|
    && (if b == [] then head == 0 && tail == 0 else 0 <= head < |b| && tail == Mod(head + |elems|, |b|))
    && forall p :: 0 <= p < |b| ==> b[p] == Slot(p, head, |b|, elems, zero)
  }

  lemma RingAt<T>(b: seq<T>, head: int, tail: int, elems: seq<T>, zero: T, i: int)
    requires Ring(b, head, tail, elems, zero) && 0 <= i < |elems|
    ensures b[Mod(head + i, |b|)] == elems[i]
    ensures i == |elems| - 1 ==> Mod(tail - 1, |b|) == Mod(head + i, |b|)
  {
  }

  lemma RingPushFront<T>(b: seq<T>, head: int, tail: int, elems: seq<T>, zero: T, e: T)
    requires Ring(b, head, tail, elems, zero) && |elems| < |b|
    ensures var h := Mod(head - 1, |b|); Ring(b[h := e], h, tail, [e] + elems, zero)
  {
  }

  lemma RingPushBack<T>(b: seq<T>, head: int, tail: int, elems: seq<T>, zero: T, e: T)
    requires Ring(b, head, tail, elems, zero) && |elems| < |b|
    ensures Ring(b[tail := e], head, Mod(tail + 1, |b|), elems + [e], zero)
  {
  }

  lemma RingPopFront<T>(b: seq<T>, head: int, tail: int, elems: seq<T>, zero: T)
    requires Ring(b, head, tail, elems, zero) && elems != []
    ensures Ring(b[head := zero], Mod(head + 1, |b|), tail, elems[1..], zero)
  {
  }

  lemma RingPopBack<T>(b: seq<T>, head: int, tail: int, elems: seq<T>, zero: T)
    requires Ring(b, head, tail, elems, zero) && elems != []
    ensures var t := Mod(tail - 1, |b|);
            b[t] == elems[|elems| - 1] && Ring(b[t := zero], head, t, elems[..|elems| - 1], zero)
  {
  }

  /** The two segments, one after the other, are the elements. */
  lemma RingSegments<T>(b: seq<T>, head: int, tail: int, elems: seq<T>, zero: T)
    requires Ring(b, head, tail, elems, zero) && elems != []
    ensures var end := if head + |elems| < |b| then head + |elems| else |b|;
            && end - head <= |elems| <= |b| + end - head
            && b[head..end] + b[0..|elems| - (end - head)] == elems
  {
    var end := if head + |elems| < |b| then head + |elems| else |b|;
    assert b[head..end] == elems[..end - head];
    assert b[0..|elems| - (end - head)] == elems[end - head..];
  }

  /** Slots of d from index to on overwritten with u. */
  function Written<T>(d: seq<T>, to: nat, u: seq<T>): seq<T>
    requires to + |u| <= |d|
  {
    d[..to] + u + d[to + |u|..]
  }

  lemma WrittenTwice<T>(d: seq<T>, u: seq<T>, v: seq<T>)
    requires |u| + |v| <= |d|
    ensures Written(Written(d, 0, u), |u|, v) == (u + v) + d[|u + v|..]
  {
  }

  /** The copy built-in on two different arrays. */
  method Copy<T>(dst: array<T>, to: nat, src: array<T>, from: nat, n: nat)
    requires dst != src && to + n <= dst.Length && from + n <= src.Length
    modifies dst
    ensures dst[..] == Written(old(dst[..]), to, src[from..from + n])
  {
    forall k | 0 <= k < n {
      dst[to + k] := src[from + k];
    }
  }

  class ArrayDeque<T> {
    var buf: array<T>
    var head: int
    var tail: int
    var size: int
    const zero: T
    // The elements, front to back; pushes made, elements copied by growth, and elements that
    // came in with a whole buffer.
    ghost var elems: seq<T>
    ghost var pushes: nat
    ghost var copies: nat
    ghost var given: nat

    ghost predicate Valid()
      reads this, buf
    {
      size == |elems| && Ring(buf[..], head, tail, elems, zero)
    }

    /** Growth has copied no more than the pushes, twice over, and the buffers given pay for;
        a buffer more than half full has saved up for the next growth. */
    ghost predicate Paid()
      reads this
    {
      && copies <= 2 * pushes + given
      && copies + 2 * size - buf.Length <= 2 * pushes + given
    }

    constructor WithCapacity(capacity: int, zero: T)
      ensures Valid() && Paid() && elems == [] && given == 0 && pushes == 0 && this.zero == zero && fresh(buf)
      ensures buf.Length == if capacity < 0 then 0 else capacity
    {
      this.zero := zero;
      buf := new T[if capacity < 0 then 0 else capacity](_ => zero);
      head, tail, size := 0, 0, 0;
      elems, pushes, copies, given := [], 0, 0, 0;
    }

    constructor From(elements: seq<T>, zero: T)
      ensures Valid() && Paid() && elems == elements && given == |elements| && fresh(buf)
      ensures pushes == 0 && this.zero == zero
    {
      this.zero := zero;
      buf := new T[|elements|](i requires 0 <= i < |elements| => elements[i]);
      head, tail, size := 0, 0, |elements|;
      elems, pushes, copies, given := elements, 0, 0, |elements|;
    }

    method Clear()
      requires Valid() && Paid()
      modifies this`head, this`tail, this`size, this`elems, buf
      ensures Valid() && Paid() && elems == [] && head == tail == 0
      ensures forall p :: 0 <= p < buf.Length ==> buf[p] == zero
    {
      forall p | 0 <= p < buf.Length {
        buf[p] := zero;
      }
      head, tail, size, elems := 0, 0, 0, [];
    }

    /** Copies the elements, front to back, as at most two contiguous segments. */
    method CopyTo(dst: array<T>)
      requires Valid() && dst.Length >= size && dst != buf
      modifies dst
      ensures dst[..] == elems + old(dst[..])[size..]
    {
      if size == 0 {
        return;
      }
      var end := if head + size < buf.Length then head + size else buf.Length;
      var n := end - head;
      RingSegments(buf[..], head, tail, elems, zero);
      ghost var d, u, v := dst[..], buf[head..end], buf[0..size - n];
      WrittenTwice(d, u, v);
      Copy(dst, 0, buf, head, n);
      assert dst[..] == Written(d, 0, u);
      Copy(dst, n, buf, 0, size - n);
    }

    method ToSlice() returns (out: array<T>)
      requires Valid()
      ensures fresh(out) && out[..] == elems
    {
      out := new T[size](_ => zero);
      CopyTo(out);
    }

    /** The element at logical index i. */
    method At(i: int) returns (v: T)
      requires Valid() && 0 <= i < size
      ensures v == elems[i]
    {
      RingAt(buf[..], head, tail, elems, zero, i);
      v := buf[Mod(head + i, buf.Length)];
    }

    /** What iterating front to back yields, element by element. */
    method Seq() returns (out: seq<T>)
      requires Valid()
      ensures out == elems
    {
      out := [];
      for i := 0 to size
        invariant out == elems[..i]
      {
        var v := At(i);
        out := out + [v];
      }
    }

    method Reversed() returns (out: seq<T>)
      requires Valid()
      ensures |out| == |elems| && forall i :: 0 <= i < |out| ==> out[i] == elems[|elems| - 1 - i]
    {
      out := [];
      for i := size downto 0
        invariant |out| == size - i
        invariant forall k :: 0 <= k < |out| ==> out[k] == elems[|elems| - 1 - k]
      {
        var v := At(i);
        out := out + [v];
      }
    }

    method EnsureCapacityForOne()
      requires Valid() && Paid()
      modifies this`buf, this`head, this`tail, this`copies
      ensures Valid() && Paid() && size < buf.Length && (buf == old(buf) || fresh(buf))
      ensures if old(size < buf.Length) then buf == old(buf) && head == old(head) && tail == old(tail)
              else buf.Length == if size == 0 then 1 else 2 * size
      ensures copies == old(copies) + if old(size < buf.Length) then 0 else size
    {
      if size < buf.Length {
        return;
      }
      var newCap := 1;
      if buf.Length > 0 {
        newCap := buf.Length * 2;
      }
      var newBuf := new T[newCap](_ => zero);
      CopyTo(newBuf);
      copies := copies + size;
      buf := newBuf;
      head := 0;
      tail := size;
    }

    method PushFront(element: T)
      requires Valid() && Paid()
      modifies this, buf
      ensures Valid() && Paid() && (buf == old(buf) || fresh(buf))
      ensures elems == [element] + old(elems) && pushes == old(pushes) + 1 && given == old(given)
      ensures copies == old(copies) + if old(size < buf.Length) then 0 else old(size)
    {
      EnsureCapacityForOne();
      RingPushFront(buf[..], head, tail, elems, zero, element);
      head := Mod(head - 1, buf.Length);
      buf[head] := element;
      size := size + 1;
      elems, pushes := [element] + elems, pushes + 1;
    }

    method PushBack(element: T)
      requires Valid() && Paid()
      modifies this, buf
      ensures Valid() && Paid() && (buf == old(buf) || fresh(buf))
      ensures elems == old(elems) + [element] && pushes == old(pushes) + 1 && given == old(given)
      ensures copies == old(copies) + if old(size < buf.Length) then 0 else old(size)
    {
      EnsureCapacityForOne();
      PutBack(element);
    }

    /** PushBack once there is room. */
    method PutBack(element: T)
      requires Valid() && Paid() && size < buf.Length
      modifies this`tail, this`size, this`elems, this`pushes, buf
      ensures Valid() && Paid() && elems == old(elems) + [element] && pushes == old(pushes) + 1
    {
      RingPushBack(buf[..], head, tail, elems, zero, element);
      buf[tail] := element;
      tail := Mod(tail + 1, buf.Length);
      size := size + 1;
      elems, pushes := elems + [element], pushes + 1;
    }

    method PopFront() returns (r: Option<T>)
      requires Valid() && Paid()
      modifies this`head, this`size, this`elems, buf
      ensures Valid() && Paid()
      ensures if old(elems) == [] then r == None && elems == []
              else r == Some(old(elems)[0]) && elems == old(elems)[1..]
    {
      if size == 0 {
        return None;
      }
      RingPopFront(buf[..], head, tail, elems, zero);
      var v := buf[head];
      buf[head] := zero;
      head := Mod(head + 1, buf.Length);
      size := size - 1;
      elems := elems[1..];
      return Some(v);
    }

    method PopBack() returns (r: Option<T>)
      requires Valid() && Paid()
      modifies this`tail, this`size, this`elems, buf
      ensures Valid() && Paid()
      ensures if old(elems) == [] then r == None && elems == []
              else r == Some(old(elems)[|old(elems)| - 1]) && elems == old(elems)[..|old(elems)| - 1]
    {
      if size == 0 {
        return None;
      }
      RingPopBack(buf[..], head, tail, elems, zero);
      tail := Mod(tail - 1, buf.Length);
      var v := buf[tail];
      buf[tail] := zero;
      size := size - 1;
      elems := elems[..|elems| - 1];
      return Some(v);
    }

    method PeekFront() returns (r: Option<T>)
      requires Valid()
      ensures r == if elems == [] then None else Some(elems[0])
    {
      if size == 0 {
        return None;
      }
      return Some(buf[head]);
    }

    method PeekBack() returns (r: Option<T>)
      requires Valid()
      ensures r == if elems == [] then None else Some(elems[|elems| - 1])
    {
      if size == 0 {
        return None;
      }
      RingAt(buf[..], head, tail, elems, zero, size - 1);
      var idx := Mod(tail - 1, buf.Length);
      return Some(buf[idx]);
    }

    /** Rebuilds the deque around a buffer that is exactly full. */
    method ReplaceFromSlice(slice: seq<T>)
      requires Valid() && Paid()
      modifies this
      ensures Valid() && Paid() && elems == slice && fresh(buf)
      ensures pushes == old(pushes) && given == old(given) + |slice|
    {
      buf := new T[|slice|](i requires 0 <= i < |slice| => slice[i]);
      head, tail, size := 0, 0, |slice|;
      elems, given := slice, given + |slice|;
    }
  }
}
