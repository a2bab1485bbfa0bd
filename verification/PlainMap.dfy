/**
 The map operations of hashmap.go on a map value, with callbacks that may panic. This is
 what the concurrent hash map is held against.
 */
module PlainMaps {
  import opened Common

  /** What running a callback, or an operation that runs one, comes to. */
  datatype Attempt<+R> = Returns(value: R) | Panics

  datatype Answer<V> = Pair(value: V, ok: bool) | Flag(ok: bool) | Just(value: V) | Nothing

  datatype Op<!K, !V> =
    | Get(key: K)
    | Put(key: K, value: V)
    | PutIfAbsent(key: K, value: V)
    | Remove(key: K)
    | RemoveIf(key: K, value: V, eq: (V, V) -> Attempt<bool>)
    | Compute(key: K, remap: (K, V, bool) -> Attempt<(V, bool)>)
    | ComputeIfAbsent(key: K, make: K -> Attempt<V>)
    | ComputeIfPresent(key: K, update: (K, V) -> Attempt<(V, bool)>)
    | Merge(key: K, value: V, merge: (V, V) -> Attempt<(V, bool)>)
    | Replace(key: K, value: V)
    | ReplaceIf(key: K, was: V, value: V, eq: (V, V) -> Attempt<bool>)
    | ReplaceAll(order: seq<K>, fn: (K, V) -> Attempt<V>)   // order: the keys as they are visited

  /** Storing what a remapping callback gave: a value to keep, or the key removed. */
  function Settled<K, V>(m: map<K, V>, key: K, out: Attempt<(V, bool)>, zero: V): (map<K, V>, Attempt<Answer<V>>) {
    match out
    case Panics => (m, Panics)
    case Returns((v, keep)) =>
      if keep then (m[key := v], Returns(Pair(v, true))) else (m - {key}, Returns(Pair(zero, false)))
  }

  function Apply<K, V>(m: map<K, V>, op: Op<K, V>, zero: V): (map<K, V>, Attempt<Answer<V>>) {
    match op
    case Get(k) => (m, Returns(if k in m then Pair(m[k], true) else Pair(zero, false)))
    case Put(k, v) => (m[k := v], Returns(if k in m then Pair(m[k], true) else Pair(zero, false)))
    case PutIfAbsent(k, v) =>
      if k in m then (m, Returns(Pair(m[k], false))) else (m[k := v], Returns(Pair(v, true)))
    case Remove(k) => (m - {k}, Returns(if k in m then Pair(m[k], true) else Pair(zero, false)))
    case RemoveIf(k, v, eq) =>
      if k !in m then (m, Returns(Flag(false)))
      else
        (match eq(m[k], v)
         case Panics => (m, Panics)
         case Returns(same) => (if same then m - {k} else m, Returns(Flag(same))))
    case Compute(k, remap) =>
      Settled(m, k, if k in m then remap(k, m[k], true) else remap(k, zero, false), zero)
    case ComputeIfAbsent(k, make) =>
      if k in m then (m, Returns(Just(m[k])))
      else
        (match make(k)
         case Panics => (m, Panics)
         case Returns(v) => (m[k := v], Returns(Just(v))))
    case ComputeIfPresent(k, update) =>
      if k in m then Settled(m, k, update(k, m[k]), zero) else (m, Returns(Pair(zero, false)))
    case Merge(k, v, merge) =>
      if k in m then Settled(m, k, merge(m[k], v), zero) else (m[k := v], Returns(Pair(v, true)))
    case Replace(k, v) =>
      if k in m then (m[k := v], Returns(Pair(m[k], true))) else (m, Returns(Pair(zero, false)))
    case ReplaceIf(k, was, v, eq) =>
      if k !in m then (m, Returns(Flag(false)))
      else
        (match eq(m[k], was)
         case Panics => (m, Panics)
         case Returns(same) => (if same then m[k := v] else m, Returns(Flag(same))))
    case ReplaceAll(order, fn) => ReplaceEach(m, order, fn)
  }

  /** Entry by entry, up to the first callback that panics; a key that is gone is passed over. */
  function ReplaceEach<K, V>(m: map<K, V>, order: seq<K>, fn: (K, V) -> Attempt<V>): (map<K, V>, Attempt<Answer<V>>) {
    if order == [] then (m, Returns(Nothing))
    else if order[0] !in m then ReplaceEach(m, order[1..], fn)
    else
      match fn(order[0], m[order[0]])
      case Panics => (m, Panics)
      case Returns(v) => ReplaceEach(m[order[0] := v], order[1..], fn)
  }

  /** The operations one after the other, with all their answers. */
  function Run<K, V>(m: map<K, V>, ops: seq<Op<K, V>>, zero: V): (map<K, V>, seq<Attempt<Answer<V>>>) {
    if ops == [] then (m, [])
    else
      var (before, answers) := Run(m, ops[..|ops| - 1], zero);
      var (after, answer) := Apply(before, ops[|ops| - 1], zero);
      (after, answers + [answer])
  }

  // ---------- What the operations mean ----------

  /** The entry of a key. */
  function Entry<K, V>(m: map<K, V>, k: K): Option<V> {
    if k in m then Some(m[k]) else None
  }

  /** The answer that reports an entry. */
  function Report<V>(e: Option<V>, zero: V): Answer<V> {
    match e
    case Some(v) => Pair(v, true)
    case None => Pair(zero, false)
  }

  /** The entry of k becomes what a remapping callback gave, which is also the answer. */
  ghost predicate Remapped<K, V>(m: map<K, V>, m': map<K, V>, k: K, out: Attempt<(V, bool)>,
                                     r: Attempt<Answer<V>>, zero: V) {
    if out.Panics? then r.Panics? && m' == m
    else
      && (out.value.1 <==> k in m') && (out.value.1 ==> m'[k] == out.value.0)
      && r == Returns(Report(Entry(m', k), zero))
  }

  /** A conditional operation says true exactly when the key is there and eq accepts its value,
      and passes on a panic of eq. */
  ghost predicate Decided<K, V>(m: map<K, V>, k: K, x: V, eq: (V, V) -> Attempt<bool>, r: Attempt<Answer<V>>) {
    && (r.Panics? <==> k in m && eq(m[k], x).Panics?)
    && (r.Returns? ==> r.value.Flag? && (r.value.ok <==> k in m && eq(m[k], x) == Returns(true)))
  }

  /** What each operation on a key does to the entry of the key and answers: m' and r come from m.
      Other entries stay as they are. */
  ghost predicate Law<K, V>(m: map<K, V>, op: Op<K, V>, m': map<K, V>, r: Attempt<Answer<V>>, zero: V)
    requires !op.ReplaceAll?
  {
    var was, now := Entry(m, op.key), Entry(m', op.key);
    && m' - {op.key} == m - {op.key}
    && match op
       case Get(_) => now == was && r == Returns(Report(was, zero))
       case Put(_, v) => now == Some(v) && r == Returns(Report(was, zero))
       case PutIfAbsent(_, v) =>
         now == (if was.None? then Some(v) else was) && r == Returns(Pair(now.value, was.None?))
       case Remove(_) => now.None? && r == Returns(Report(was, zero))
       case RemoveIf(k, v, eq) => Decided(m, k, v, eq, r) && now == (if r == Returns(Flag(true)) then None else was)
       case Compute(k, remap) =>
         Remapped(m, m', k, remap(k, if was.Some? then was.value else zero, was.Some?), r, zero)
       case ComputeIfAbsent(k, make) =>
         if was.None? && make(k).Panics? then r.Panics? && now.None?
         else
           && now.Some? && r == Returns(Just(now.value))
           && (if was.Some? then now == was else make(k) == Returns(now.value))
       case ComputeIfPresent(k, update) =>
         if was.Some? then Remapped(m, m', k, update(k, was.value), r, zero)
         else now.None? && r == Returns(Pair(zero, false))
       case Merge(k, v, merge) =>
         if was.Some? then Remapped(m, m', k, merge(was.value, v), r, zero)
         else now == Some(v) && r == Returns(Pair(v, true))
       case Replace(_, v) => now == (if was.Some? then Some(v) else None) && r == Returns(Report(was, zero))
       case ReplaceIf(k, x, v, eq) =>
         Decided(m, k, x, eq, r) && now == (if r == Returns(Flag(true)) then Some(v) else was)
  }

  lemma EntryDecides<K, V>(a: map<K, V>, b: map<K, V>, k: K)
    requires a - {k} == b - {k} && Entry(a, k) == Entry(b, k)
    ensures a == b
  {
    assert forall x :: x in a <==> (x == k && k in a) || x in a - {k};
    assert forall x :: x in b <==> (x == k && k in b) || x in b - {k};
    forall x | x in a
      ensures x in b && a[x] == b[x]
    {
      if x != k {
        assert a[x] == (a - {k})[x] && b[x] == (b - {k})[x];
      }
    }
  }

  lemma LawHolds<K, V>(m: map<K, V>, op: Op<K, V>, zero: V)
    requires !op.ReplaceAll?
    ensures var (m', r) := Apply(m, op, zero); Law(m, op, m', r, zero)
  {
  }

  lemma LawOnce<K, V>(m: map<K, V>, op: Op<K, V>, m1: map<K, V>, r1: Attempt<Answer<V>>, m2: map<K, V>,
                      r2: Attempt<Answer<V>>, zero: V)
    requires !op.ReplaceAll? && Law(m, op, m1, r1, zero) && Law(m, op, m2, r2, zero)
    ensures m1 == m2 && r1 == r2
  {
    EntryDecides(m1, m2, op.key);
  }

  /** The law leaves nothing open: it holds of what the operation does, and of nothing else. */
  lemma LawExact<K, V>(m: map<K, V>, op: Op<K, V>, m': map<K, V>, r: Attempt<Answer<V>>, zero: V)
    requires !op.ReplaceAll?
    ensures Law(m, op, m', r, zero) <==> (m', r) == Apply(m, op, zero)
  {
    LawHolds(m, op, zero);
    if Law(m, op, m', r, zero) {
      LawOnce(m, op, m', r, Apply(m, op, zero).0, Apply(m, op, zero).1, zero);
    }
  }

  // ---------- Properties ----------

  predicate ForPresentKey<K, V>(op: Op<K, V>) {
    op.Remove? || op.RemoveIf? || op.ComputeIfPresent? || op.Replace? || op.ReplaceIf?
  }

  /** Operations on a present key leave a map without the key as it is, and nobody is called. */
  lemma AbsentUntouched<K, V>(m: map<K, V>, op: Op<K, V>, zero: V)
    requires ForPresentKey(op) && op.key !in m
    ensures Apply(m, op, zero).0 == m && Apply(m, op, zero).1.Returns?
  {
    assert op.Remove? ==> m - {op.key} == m;
  }

  /** An operation on one key leaves every other entry alone; one that panics leaves them all. */
  lemma OneKey<K, V>(m: map<K, V>, op: Op<K, V>, zero: V)
    requires !op.ReplaceAll?
    ensures Apply(m, op, zero).0 - {op.key} == m - {op.key}
    ensures Apply(m, op, zero).1.Panics? ==> Apply(m, op, zero).0 == m
  {
  }

  /** A ReplaceAll that visited the first n keys has replaced exactly their entries. */
  ghost predicate ReplacedUpTo<K, V>(m: map<K, V>, m': map<K, V>, order: seq<K>, n: nat, fn: (K, V) -> Attempt<V>) {
    && n <= |order| && m'.Keys == m.Keys
    && forall k {:trigger m'[k]} :: k in m ==>
         if k in order[..n] then fn(k, m[k]) == Returns(m'[k]) else m'[k] == m[k]
  }

  /** ReplaceAll visits every key, or stops at the first one whose callback panics. */
  lemma {:induction false} ReplaceEachMeans<K, V>(m: map<K, V>, order: seq<K>, fn: (K, V) -> Attempt<V>)
    returns (n: nat)
    requires NoDup(order)
    ensures var (m', answer) := ReplaceEach(m, order, fn);
            && ReplacedUpTo(m, m', order, n, fn)
            && (if answer.Panics? then n < |order| && order[n] in m && fn(order[n], m[order[n]]).Panics?
               else n == |order|)
  {
    if order == [] {
      return 0;
    }
    var k := order[0];
    if k in m && fn(k, m[k]).Panics? {
      return 0;
    }
    var m1 := if k in m then m[k := fn(k, m[k]).value] else m;
    var r := ReplaceEachMeans(m1, order[1..], fn);
    n := r + 1;
    assert order[..n] == [k] + order[1..][..r];
    var m' := ReplaceEach(m, order, fn).0;
    assert m' == ReplaceEach(m1, order[1..], fn).0;
    assert k !in order[1..][..r];
    forall x {:trigger m'[x]} | x in m
      ensures if x in order[..n] then fn(x, m[x]) == Returns(m'[x]) else m'[x] == m[x]
    {
      assert x in order[..n] <==> x == k || x in order[1..][..r];
      assert x != k ==> m1[x] == m[x];
    }
  }
}
