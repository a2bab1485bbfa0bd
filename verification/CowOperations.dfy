/**
 The mutators of cowlist.go: what each means for the sequence of elements, and what its code
 writes into the slots of the new slice.
 */
module CowOperations {
  import opened Common

  // ---------- What the operations mean ----------

  datatype Result<T> = Unit | Flag(ok: bool) | Item(item: Option<T>) | Count(n: nat) | Slice(elems: seq<T>)

  datatype Op<!T> =
    | Set(index: int, elem: T)
    | AddAll(elems: seq<T>)                       // Add is a batch of one that is never empty
    | Insert(index: int, elem: T)
    | InsertAll(index: int, elems: seq<T>)
    | RemoveAt(index: int)                        // RemoveFirst is RemoveAt(0)
    | Remove(matches: T -> bool)
    | RemoveLast
    | RemoveFunc(pred: T -> bool)
    | Sort(arrange: seq<T> -> seq<T>)             // what slices.SortFunc does to a slice
    | Clear
    | Replace(elems: seq<T>)

  datatype Outcome<T> = Outcome(after: seq<T>, res: Result<T>)

  /** The operation on a sequence. */
  function Apply<T>(op: Op<T>, s: seq<T>): Outcome<T> {
    match op
    case Set(i, e) =>
      if 0 <= i < |s| then Outcome(s[i := e], Item(Some(s[i]))) else Outcome(s, Item(None))
    case AddAll(es) => Outcome(s + es, Unit)
    case Insert(i, e) =>
      if 0 <= i <= |s| then Outcome(s[..i] + [e] + s[i..], Flag(true)) else Outcome(s, Flag(false))
    case InsertAll(i, es) =>
      if es == [] then Outcome(s, Flag(true))
      else if 0 <= i <= |s| then Outcome(s[..i] + es + s[i..], Flag(true)) else Outcome(s, Flag(false))
    case RemoveAt(i) =>
      if 0 <= i < |s| then Outcome(s[..i] + s[i + 1..], Item(Some(s[i]))) else Outcome(s, Item(None))
    case Remove(matches) =>
      var i := IndexWhere(s, matches);
      if i < |s| then Outcome(s[..i] + s[i + 1..], Flag(true)) else Outcome(s, Flag(false))
    case RemoveLast =>
      if s == [] then Outcome(s, Item(None)) else Outcome(s[..|s| - 1], Item(Some(s[|s| - 1])))
    case RemoveFunc(pred) => Outcome(Rejected(s, pred), Count(|s| - |Rejected(s, pred)|))
    case Sort(arrange) => Outcome(arrange(s), Unit)
    case Clear => Outcome([], Unit)
    case Replace(es) => Outcome(es, Unit)
  }

  // ---------- ... as a relation ----------

  /** t is s without the element at index i. */
  ghost predicate Without<T>(s: seq<T>, t: seq<T>, i: int) {
    0 <= i <= |t| && |s| == |t| + 1 && t[..i] == s[..i] && t[i..] == s[i + 1..]
  }

  /** t is s with es put in at index i. */
  ghost predicate With<T>(s: seq<T>, t: seq<T>, i: int, es: seq<T>) {
    0 <= i <= |s| && |t| == |s| + |es| && t[..i] == s[..i] && t[i..i + |es|] == es && t[i + |es|..] == s[i..]
  }

  /** The element at index i satisfies p, and none before it does. */
  ghost predicate FirstAt<T>(s: seq<T>, i: int, p: T -> bool) {
    0 <= i < |s| && p(s[i]) && forall j :: 0 <= j < i ==> !p(s[j])
  }

  /** t is s without the elements that satisfy p: every element kept comes from s, in order, and
      every element of s that does not satisfy p is kept. */
  ghost predicate Sifted<T>(s: seq<T>, t: seq<T>, p: T -> bool) {
    exists at: seq<nat> :: SiftedAt(s, t, at, p)
  }

  ghost predicate SiftedAt<T>(s: seq<T>, t: seq<T>, at: seq<nat>, p: T -> bool) {
    && |at| == |t| && (forall j, k :: 0 <= j < k < |at| ==> at[j] < at[k])
    && (forall j :: 0 <= j < |at| ==> at[j] < |s| && t[j] == s[at[j]])
    && forall i: nat :: i < |s| ==> (i in at <==> !p(s[i]))
  }

  /** What a call that turns s into t answers. */
  ghost predicate Means<T>(op: Op<T>, s: seq<T>, t: seq<T>, res: Result<T>) {
    match op
    case Set(i, e) =>
      if 0 <= i < |s| then
        && res == Item(Some(s[i]))
        && |t| == |s| && t[i] == e && forall j :: 0 <= j < |s| && j != i ==> t[j] == s[j]
      else t == s && res == Item(None)
    case AddAll(es) => res == Unit && With(s, t, |s|, es)
    case Insert(i, e) =>
      (res == Flag(true) && With(s, t, i, [e])) || (res == Flag(false) && t == s && !(0 <= i <= |s|))
    case InsertAll(i, es) =>
      && (res == Flag(true) || res == Flag(false)) && (res == Flag(true) <==> es == [] || 0 <= i <= |s|)
      && if 0 <= i <= |s| then With(s, t, i, es) else t == s
    case RemoveAt(i) =>
      if 0 <= i < |s| then res == Item(Some(s[i])) && Without(s, t, i) else res == Item(None) && t == s
    case Remove(matches) =>
      if exists i :: 0 <= i < |s| && matches(s[i])
      then res == Flag(true) && exists i :: FirstAt(s, i, matches) && Without(s, t, i)
      else res == Flag(false) && t == s
    case RemoveLast =>
      if s == [] then res == Item(None) && t == s else res.Item? && res.item.Some? && s == t + [res.item.value]
    case RemoveFunc(pred) => res.Count? && res.n + |t| == |s| && Sifted(s, t, pred)
    case Sort(arrange) => res == Unit && t == arrange(s)
    case Clear => res == Unit && t == []
    case Replace(es) => res == Unit && t == es
  }

  // ---------- ... and that Apply is that relation ----------

  lemma {:induction false} RejectedSifted<T>(s: seq<T>, n: nat, p: T -> bool) returns (at: seq<nat>)
    requires n <= |s|
    ensures SiftedAt(s[..n], RejectedIn(s, n, p), at, p)
  {
    at := [];
    if n > 0 {
      at := RejectedSifted(s, n - 1, p);
      if !p(s[n - 1]) {
        at := at + [n - 1];
      }
    }
  }

  /** The first index whose element satisfies the predicate, or the length. */
  function IndexWhere<T>(s: seq<T>, p: T -> bool): (i: nat)
    ensures i <= |s| && (i < |s| ==> p(s[i])) && forall j :: 0 <= j < i ==> !p(s[j])
  {
    if s == [] || p(s[0]) then 0 else 1 + IndexWhere(s[1..], p)
  }

  lemma NoneLost(a: seq<nat>, b: seq<nat>)
    requires a != [] && forall i :: i in a ==> i in b
    ensures b != []
  {
    assert a[0] in a;
  }

  /** There is only one way to list numbers in ascending order. */
  lemma {:induction false} AscendingOnce(at: seq<nat>, bt: seq<nat>)
    requires forall j, k :: 0 <= j < k < |at| ==> at[j] < at[k]
    requires forall j, k :: 0 <= j < k < |bt| ==> bt[j] < bt[k]
    requires forall i :: i in at <==> i in bt
    ensures at == bt
  {
    if at != [] {
      NoneLost(at, bt);
    }
    if bt != [] {
      NoneLost(bt, at);
    }
    if at != [] {
      var m, n := |at| - 1, |bt| - 1;
      assert at[m] in bt && bt[n] in at;
      assert at[m] == bt[n];
      forall i
        ensures i in at[..m] <==> i in bt[..n]
      {
        assert i in at[..m] <==> i in at && i != at[m];
        assert i in bt[..n] <==> i in bt && i != bt[n];
      }
      AscendingOnce(at[..m], bt[..n]);
      assert at == at[..m] + [at[m]] && bt == bt[..n] + [bt[n]];
    }
  }

  /** There is only one way to sift. */
  lemma SiftedOnce<T>(s: seq<T>, t: seq<T>, p: T -> bool)
    ensures Sifted(s, t, p) <==> t == Rejected(s, p)
  {
    var bt := RejectedSifted(s, |s|, p);
    assert s[..|s|] == s;
    if Sifted(s, t, p) {
      var at: seq<nat> :| SiftedAt(s, t, at, p);
      AscendingOnce(at, bt);
    }
  }

  lemma WithoutIs<T>(s: seq<T>, t: seq<T>, i: int)
    requires 0 <= i < |s|
    ensures Without(s, t, i) <==> t == s[..i] + s[i + 1..]
  {
    if Without(s, t, i) {
      assert t == t[..i] + t[i..];
    }
  }

  lemma WithIs<T>(s: seq<T>, t: seq<T>, i: int, es: seq<T>)
    requires 0 <= i <= |s|
    ensures With(s, t, i, es) <==> t == s[..i] + es + s[i..]
  {
    if With(s, t, i, es) {
      assert t == t[..i] + t[i..i + |es|] + t[i + |es|..];
    }
  }

  lemma RemoveMeans<T>(s: seq<T>, t: seq<T>, res: Result<T>, matches: T -> bool)
    ensures Means(Remove(matches), s, t, res) <==> Apply(Remove(matches), s) == Outcome(t, res)
  {
    var i := IndexWhere(s, matches);
    if i < |s| {
      WithoutIs(s, t, i);
      assert FirstAt(s, i, matches);
      assert forall j :: FirstAt(s, j, matches) ==> j == i;
    }
  }

  lemma SetMeans<T>(s: seq<T>, t: seq<T>, res: Result<T>, i: int, e: T)
    ensures Means(Set(i, e), s, t, res) <==> Apply(Set(i, e), s) == Outcome(t, res)
  {
    if 0 <= i < |s| && Means(Set(i, e), s, t, res) {
      assert t == s[i := e];
    }
  }

  /** The relation is what Apply computes, no more and no less. */
  lemma MeansExact<T>(op: Op<T>, s: seq<T>, t: seq<T>, res: Result<T>)
    ensures Means(op, s, t, res) <==> Apply(op, s) == Outcome(t, res)
  {
    match op
    case Set(i, e) => SetMeans(s, t, res, i, e);
    case AddAll(es) =>
      WithIs(s, t, |s|, es);
      assert s[..|s|] + es + s[|s|..] == s + es;
    case Insert(i, e) => if 0 <= i <= |s| { WithIs(s, t, i, [e]); }
    case InsertAll(i, es) =>
      if 0 <= i <= |s| {
        WithIs(s, t, i, es);
        assert es == [] ==> s[..i] + es + s[i..] == s;
      }
    case RemoveAt(i) => if 0 <= i < |s| { WithoutIs(s, t, i); }
    case Remove(matches) => RemoveMeans(s, t, res, matches);
    case RemoveLast =>
      if s != [] {
        assert s == s[..|s| - 1] + [s[|s| - 1]];
        assert res.Item? && res.item.Some? && s == t + [res.item.value] ==> t == s[..|s| - 1];
      }
    case RemoveFunc(pred) => SiftedOnce(s, t, pred);
    case _ =>
  }

  // ---------- What the code does with the slots ----------

  /** Operations that return before taking the lock. */
  predicate Skips<T>(op: Op<T>) {
    (op.AddAll? || op.InsertAll?) && op.elems == []
  }

  /** What such a call answers. */
  function SkipReply<T>(op: Op<T>): Result<T>
    requires Skips(op)
  {
    match op
    case InsertAll(_, _) => Flag(true)
    case AddAll(_) => Unit
  }

  /** Operations that do not load the current slice. */
  predicate Blind<T>(op: Op<T>) {
    op.Clear? || op.Replace?
  }

  /** The early return of an operation that stores nothing, having read s. */
  function Refusal<T>(op: Op<T>, s: seq<T>): Option<Result<T>> {
    match op
    case Set(i, _) => if i < 0 || i >= |s| then Some(Item(None)) else None
    case Insert(i, _) => if i < 0 || i > |s| then Some(Flag(false)) else None
    case InsertAll(i, _) => if i < 0 || i > |s| then Some(Flag(false)) else None
    case RemoveAt(i) => if i < 0 || i >= |s| then Some(Item(None)) else None
    case Remove(matches) => if IndexWhere(s, matches) == |s| then Some(Flag(false)) else None
    case RemoveLast => if |s| == 0 then Some(Item(None)) else None
    case RemoveFunc(pred) => if |Rejected(s, pred)| == |s| then Some(Count(0)) else None
    case _ => None
  }

  /** The length the new slice is made with. */
  function NewLen<T>(op: Op<T>, s: seq<T>): int {
    match op
    case Set(_, _) => |s|
    case AddAll(es) => |s| + |es|
    case Insert(_, _) => |s| + 1
    case InsertAll(_, es) => |s| + |es|
    case RemoveAt(_) => |s| - 1
    case Remove(_) => |s| - 1
    case RemoveLast => |s| - 1
    case RemoveFunc(pred) => |Rejected(s, pred)|
    case Sort(arrange) => |arrange(s)|
    case Clear => 0
    case Replace(es) => |es|
  }

  /** What ends up in slot j of the new slice, by the copies the code makes. */
  function Slot<T>(op: Op<T>, s: seq<T>, j: nat): T
    requires Refusal(op, s).None? && j < NewLen(op, s)
  {
    match op
    case Set(i, e) => if j == i then e else s[j]
    case AddAll(es) => if j < |s| then s[j] else es[j - |s|]
    case Insert(i, e) => if j < i then s[j] else if j == i then e else s[j - 1]
    case InsertAll(i, es) => if j < i then s[j] else if j < i + |es| then es[j - i] else s[j - |es|]
    case RemoveAt(i) => if j < i then s[j] else s[j + 1]
    case Remove(matches) => if j < IndexWhere(s, matches) then s[j] else s[j + 1]
    case RemoveLast => s[j]
    case RemoveFunc(pred) => Rejected(s, pred)[j]
    case Sort(arrange) => arrange(s)[j]
    case Replace(es) => es[j]
  }

  function Reply<T>(op: Op<T>, s: seq<T>): Result<T>
    requires Refusal(op, s).None?
  {
    match op
    case Set(i, _) => Item(Some(s[i]))
    case Insert(_, _) => Flag(true)
    case InsertAll(_, _) => Flag(true)
    case RemoveAt(i) => Item(Some(s[i]))
    case Remove(_) => Flag(true)
    case RemoveLast => Item(Some(s[|s| - 1]))
    case RemoveFunc(pred) => Count(|s| - |Rejected(s, pred)|)
    case _ => Unit
  }

  /** If nothing is rejected everything is kept. */
  lemma {:induction false} RejectedNone<T>(s: seq<T>, n: nat, p: T -> bool)
    requires n <= |s| && |RejectedIn(s, n, p)| == n
    ensures RejectedIn(s, n, p) == s[..n]
  {
    if n > 0 {
      RejectedNone(s, n - 1, p);
    }
  }

  /** A skipped call has nothing to do, and answers as if it had done it. */
  lemma SkipMeans<T>(op: Op<T>, s: seq<T>)
    requires Skips(op)
    ensures Apply(op, s) == Outcome(s, SkipReply(op)) && Means(op, s, s, SkipReply(op))
  {
    assert s + [] == s;
    MeansExact(op, s, s, SkipReply(op));
  }

  lemma RefusalMeans<T>(op: Op<T>, s: seq<T>)
    requires !Skips(op) && Refusal(op, s).Some?
    ensures Apply(op, s) == Outcome(s, Refusal(op, s).value) && Means(op, s, s, Refusal(op, s).value)
  {
    if op.RemoveFunc? {
      RejectedNone(s, |s|, op.pred);
    }
    MeansExact(op, s, s, Refusal(op, s).value);
  }

  /** A slice filled with the slots of an operation is what the operation means. */
  lemma SlotsMean<T>(op: Op<T>, s: seq<T>, filled: seq<T>)
    requires !Skips(op) && Refusal(op, s).None? && |filled| == NewLen(op, s)
    requires forall j :: 0 <= j < |filled| ==> filled[j] == Slot(op, s, j)
    ensures Apply(op, s) == Outcome(filled, Reply(op, s)) && Means(op, s, filled, Reply(op, s))
  {
    var t := Apply(op, s).after;
    assert |t| == |filled|;
    assert forall j :: 0 <= j < |t| ==> t[j] == Slot(op, s, j);
    assert t == filled;
    MeansExact(op, s, filled, Reply(op, s));
  }

  lemma BlindMeans<T>(op: Op<T>, s: seq<T>, filled: seq<T>)
    requires Blind(op) && |filled| == NewLen(op, [])
    requires forall j :: 0 <= j < |filled| ==> filled[j] == Slot(op, [], j)
    ensures Apply(op, s) == Outcome(filled, Reply(op, []))
  {
    SlotsMean(op, [], filled);
  }
}
