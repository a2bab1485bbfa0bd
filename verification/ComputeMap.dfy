/**
 The compute layer of concurrent_hashmap.go. Every operation is one use of the backing map's
 primitive: it looks the key up, runs the operation's own code while the bucket is locked, and
 settles on a new value or a deletion. A panic of a callback is raised again when the bucket has
 been unlocked.
 */
module ComputeMaps {
  import opened PlainMaps

  class ConcurrentHashMap<K(==), V> {
    var m: map<K, V>
    const zero: V
    // The lock of the bucket that an operation is working on.
    var locked: bool

    constructor (zero: V)
      ensures m == map[] && this.zero == zero && !locked
    {
      this.zero, m, locked := zero, map[], false;
    }

    // ---------- The backing map ----------

    /** A read, which takes no lock: the current value, or zero and false. */
    method Load(key: K) returns (v: V, ok: bool)
      ensures ok == (key in m) && v == if ok then m[key] else zero
    {
      ok := key in m;
      v := zero;
      if ok {
        v := m[key];
      }
    }

    /** The first half of the primitive: locks the bucket and reads. */
    method Lookup(key: K) returns (prev: V, loaded: bool)
      requires !locked
      modifies this`locked
      ensures locked && loaded == (key in m) && prev == if loaded then m[key] else zero
    {
      locked := true;
      prev, loaded := Load(key);
    }

    /** The second half: stores the value, or deletes the key, and unlocks the bucket; deleting
        an absent key is a no-op. */
    method Settle(key: K, value: V, delete: bool)
      requires locked
      modifies this`m, this`locked
      ensures !locked && m == if delete then old(m) - {key} else old(m)[key := value]
    {
      if delete {
        m := m - {key};
      } else {
        m := m[key := value];
      }
      locked := false;
    }

    /** The second half of an operation that leaves the entry alone. */
    method Cancel()
      requires locked
      modifies this`locked
      ensures !locked
    {
      locked := false;
    }

    /** Giving the old value back, or deleting what is not there, changes nothing. */
    lemma Unchanged(key: K)
      ensures key in m ==> m[key := m[key]] == m
      ensures key !in m ==> m - {key} == m
    {
    }

    // ---------- Operations ----------

    method Put(key: K, value: V) returns (r: Attempt<Answer<V>>)
      requires !locked
      modifies this`m, this`locked
      ensures !locked
      ensures (m, r) == Apply(old(m), PlainMaps.Put(key, value), zero)
      ensures Law(old(m), PlainMaps.Put(key, value), m, r, zero)
    {
      var was, existed := zero, false;
      var prev, loaded := Lookup(key);
      if loaded {
        was := prev;
        existed := true;
      }
      Settle(key, value, false);
      r := Returns(Pair(was, existed));
      LawExact(old(m), PlainMaps.Put(key, value), m, r, zero);
    }

    method Get(key: K) returns (r: Attempt<Answer<V>>)
      ensures (m, r) == Apply(m, PlainMaps.Get(key), zero)
      ensures Law(m, PlainMaps.Get(key), m, r, zero)
    {
      var v, ok := Load(key);
      r := Returns(Pair(v, ok));
      LawExact(m, PlainMaps.Get(key), m, r, zero);
    }

    method PutIfAbsent(key: K, value: V) returns (r: Attempt<Answer<V>>)
      requires !locked
      modifies this`m, this`locked
      ensures !locked
      ensures (m, r) == Apply(old(m), PlainMaps.PutIfAbsent(key, value), zero)
      ensures Law(old(m), PlainMaps.PutIfAbsent(key, value), m, r, zero)
    {
      var v, loaded := Lookup(key);
      if loaded {
        Cancel();
      } else {
        Settle(key, value, false);
        v := value;
      }
      r := Returns(Pair(v, !loaded));
      LawExact(old(m), PlainMaps.PutIfAbsent(key, value), m, r, zero);
    }

    method Remove(key: K) returns (r: Attempt<Answer<V>>)
      requires !locked
      modifies this`m, this`locked
      ensures !locked
      ensures (m, r) == Apply(old(m), PlainMaps.Remove(key), zero)
      ensures Law(old(m), PlainMaps.Remove(key), m, r, zero)
    {
      var v, loaded := Lookup(key);
      Settle(key, zero, true);
      r := Returns(Pair(v, loaded));
      LawExact(old(m), PlainMaps.Remove(key), m, r, zero);
    }

    method RemoveIf(key: K, value: V, eq: (V, V) -> Attempt<bool>) returns (r: Attempt<Answer<V>>)
      requires !locked
      modifies this`m, this`locked
      ensures !locked
      ensures (m, r) == Apply(old(m), PlainMaps.RemoveIf(key, value, eq), zero)
      ensures Law(old(m), PlainMaps.RemoveIf(key, value, eq), m, r, zero)
    {
      Unchanged(key);
      var removed, panicked := false, false;
      var prev, loaded := Lookup(key);
      if !loaded {
        Settle(key, prev, true);
      } else {
        var match_ := eq(prev, value);
        panicked := match_.Panics?;
        if panicked {
          Settle(key, prev, false);
        } else if match_.value {
          removed := true;
          Settle(key, zero, true);
        } else {
          Settle(key, prev, false);
        }
      }
      r := if panicked then Panics else Returns(Flag(removed));
      LawExact(old(m), PlainMaps.RemoveIf(key, value, eq), m, r, zero);
    }

    method Compute(key: K, remap: (K, V, bool) -> Attempt<(V, bool)>) returns (r: Attempt<Answer<V>>)
      requires !locked
      modifies this`m, this`locked
      ensures !locked
      ensures (m, r) == Apply(old(m), PlainMaps.Compute(key, remap), zero)
      ensures Law(old(m), PlainMaps.Compute(key, remap), m, r, zero)
    {
      Unchanged(key);
      var result, ok, panicked := zero, false, false;
      var prev, loaded := Lookup(key);
      var out := remap(key, prev, loaded);
      panicked := out.Panics?;
      if panicked {
        Settle(key, prev, !loaded);
      } else if !out.value.1 {
        Settle(key, zero, true);
      } else {
        ok := true;
        result := out.value.0;
        Settle(key, result, false);
      }
      r := if panicked then Panics else Returns(Pair(result, ok));
      LawExact(old(m), PlainMaps.Compute(key, remap), m, r, zero);
    }

    /** The value there is, or the one computed for an absent key; loaded tells which. */
    method LoadOrTryCompute(key: K, compute: () -> Attempt<V>) returns (v: V, loaded: bool, panicked: bool)
      requires !locked
      modifies this`m, this`locked
      ensures !locked
      ensures loaded == (key in old(m)) && panicked == (!loaded && compute().Panics?)
      ensures m == if loaded || panicked then old(m) else old(m)[key := v]
      ensures if loaded then v == old(m)[key] else !panicked ==> compute() == Returns(v)
    {
      panicked := false;
      v, loaded := Lookup(key);
      if loaded {
        Cancel();
      } else {
        var nv := compute();
        panicked := nv.Panics?;
        if panicked {
          Cancel();
        } else {
          v := nv.value;
          Settle(key, v, false);
        }
      }
    }

    method ComputeIfAbsent(key: K, make: K -> Attempt<V>) returns (r: Attempt<Answer<V>>)
      requires !locked
      modifies this`m, this`locked
      ensures !locked
      ensures (m, r) == Apply(old(m), PlainMaps.ComputeIfAbsent(key, make), zero)
      ensures Law(old(m), PlainMaps.ComputeIfAbsent(key, make), m, r, zero)
    {
      var v, _, panicked := LoadOrTryCompute(key, () => make(key));
      r := if panicked then Panics else Returns(Just(v));
      LawExact(old(m), PlainMaps.ComputeIfAbsent(key, make), m, r, zero);
    }

    method ComputeIfPresent(key: K, update: (K, V) -> Attempt<(V, bool)>) returns (r: Attempt<Answer<V>>)
      requires !locked
      modifies this`m, this`locked
      ensures !locked
      ensures (m, r) == Apply(old(m), PlainMaps.ComputeIfPresent(key, update), zero)
      ensures Law(old(m), PlainMaps.ComputeIfPresent(key, update), m, r, zero)
    {
      Unchanged(key);
      var result, ok, panicked := zero, false, false;
      var prev, loaded := Lookup(key);
      if !loaded {
        Settle(key, prev, true);
      } else {
        var out := update(key, prev);
        panicked := out.Panics?;
        if panicked {
          Settle(key, prev, false);
        } else if !out.value.1 {
          Settle(key, zero, true);
        } else {
          ok := true;
          result := out.value.0;
          Settle(key, result, false);
        }
      }
      r := if panicked then Panics else Returns(Pair(result, ok));
      LawExact(old(m), PlainMaps.ComputeIfPresent(key, update), m, r, zero);
    }

    method Merge(key: K, value: V, merge: (V, V) -> Attempt<(V, bool)>) returns (r: Attempt<Answer<V>>)
      requires !locked
      modifies this`m, this`locked
      ensures !locked
      ensures (m, r) == Apply(old(m), PlainMaps.Merge(key, value, merge), zero)
      ensures Law(old(m), PlainMaps.Merge(key, value, merge), m, r, zero)
    {
      Unchanged(key);
      var result, ok, panicked := zero, false, false;
      var prev, loaded := Lookup(key);
      if !loaded {
        ok := true;
        result := value;
        Settle(key, value, false);
      } else {
        var out := merge(prev, value);
        panicked := out.Panics?;
        if panicked {
          Settle(key, prev, false);
        } else if !out.value.1 {
          Settle(key, zero, true);
        } else {
          ok := true;
          result := out.value.0;
          Settle(key, result, false);
        }
      }
      r := if panicked then Panics else Returns(Pair(result, ok));
      LawExact(old(m), PlainMaps.Merge(key, value, merge), m, r, zero);
    }

    method Replace(key: K, value: V) returns (r: Attempt<Answer<V>>)
      requires !locked
      modifies this`m, this`locked
      ensures !locked
      ensures (m, r) == Apply(old(m), PlainMaps.Replace(key, value), zero)
      ensures Law(old(m), PlainMaps.Replace(key, value), m, r, zero)
    {
      Unchanged(key);
      var was, replaced := zero, false;
      var prev, loaded := Lookup(key);
      if !loaded {
        Settle(key, prev, true);
      } else {
        was := prev;
        replaced := true;
        Settle(key, value, false);
      }
      r := Returns(Pair(was, replaced));
      LawExact(old(m), PlainMaps.Replace(key, value), m, r, zero);
    }

    method ReplaceIf(key: K, was: V, value: V, eq: (V, V) -> Attempt<bool>) returns (r: Attempt<Answer<V>>)
      requires !locked
      modifies this`m, this`locked
      ensures !locked
      ensures (m, r) == Apply(old(m), PlainMaps.ReplaceIf(key, was, value, eq), zero)
      ensures Law(old(m), PlainMaps.ReplaceIf(key, was, value, eq), m, r, zero)
    {
      Unchanged(key);
      var ok, panicked := false, false;
      var prev, loaded := Lookup(key);
      if !loaded {
        Settle(key, prev, true);
      } else {
        var match_ := eq(prev, was);
        panicked := match_.Panics?;
        if panicked {
          Settle(key, prev, false);
        } else if match_.value {
          ok := true;
          Settle(key, value, false);
        } else {
          Settle(key, prev, false);
        }
      }
      r := if panicked then Panics else Returns(Flag(ok));
      LawExact(old(m), PlainMaps.ReplaceIf(key, was, value, eq), m, r, zero);
    }

    /** The callback of ReplaceAll for one visited key. */
    method ReplaceOne(k: K, fn: (K, V) -> Attempt<V>) returns (panicked: bool)
      requires !locked
      modifies this`m, this`locked
      ensures !locked
      ensures panicked == (k in old(m) && fn(k, old(m)[k]).Panics?)
      ensures m == if k !in old(m) || panicked then old(m) else old(m)[k := fn(k, old(m)[k]).value]
    {
      Unchanged(k);
      panicked := false;
      var prev, loaded := Lookup(k);
      if !loaded {
        Settle(k, prev, true);
      } else {
        var nv := fn(k, prev);
        panicked := nv.Panics?;
        Settle(k, if panicked then prev else nv.value, false);
      }
    }

    /** Visits the keys in the given order; a key may be gone when its turn comes. */
    method ReplaceAll(order: seq<K>, fn: (K, V) -> Attempt<V>) returns (r: Attempt<Answer<V>>)
      requires !locked
      modifies this`m, this`locked
      ensures !locked
      ensures (m, r) == Apply(old(m), PlainMaps.ReplaceAll(order, fn), zero)
    {
      var i, panicked := 0, false;
      while i < |order| && !panicked
        invariant 0 <= i <= |order| && !locked
        invariant ReplaceEach(old(m), order, fn) == if panicked then (m, Panics) else ReplaceEach(m, order[i..], fn)
        decreases |order| - i
      {
        panicked := ReplaceOne(order[i], fn);
        i := i + 1;
      }
      return if panicked then Panics else Returns(Nothing);
    }

    method Perform(op: Op<K, V>) returns (r: Attempt<Answer<V>>)
      requires !locked
      modifies this`m, this`locked
      ensures !locked
      ensures (m, r) == Apply(old(m), op, zero)
      ensures !op.ReplaceAll? ==> Law(old(m), op, m, r, zero)
    {
      match op
      case Get(k) => r := Get(k);
      case Put(k, v) => r := Put(k, v);
      case PutIfAbsent(k, v) => r := PutIfAbsent(k, v);
      case Remove(k) => r := Remove(k);
      case RemoveIf(k, v, eq) => r := RemoveIf(k, v, eq);
      case Compute(k, remap) => r := Compute(k, remap);
      case ComputeIfAbsent(k, make) => r := ComputeIfAbsent(k, make);
      case ComputeIfPresent(k, update) => r := ComputeIfPresent(k, update);
      case Merge(k, v, merge) => r := Merge(k, v, merge);
      case Replace(k, v) => r := Replace(k, v);
      case ReplaceIf(k, was, v, eq) => r := ReplaceIf(k, was, v, eq);
      case ReplaceAll(order, fn) => r := ReplaceAll(order, fn);
    }

    /** Any series of operations gives the answers and the contents the plain map gives. */
    method PerformAll(ops: seq<Op<K, V>>) returns (answers: seq<Attempt<Answer<V>>>)
      requires !locked
      modifies this`m, this`locked
      ensures !locked
      ensures (m, answers) == Run(old(m), ops, zero)
    {
      answers := [];
      for i := 0 to |ops|
        invariant !locked && (m, answers) == Run(old(m), ops[..i], zero)
      {
        assert ops[..i + 1][..i] == ops[..i];
        var r := Perform(ops[i]);
        answers := answers + [r];
      }
      assert ops[..|ops|] == ops;
    }
  }
}
