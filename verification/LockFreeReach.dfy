/**
 What following next pointers finds: from head or any published node the tail, without
 repetition; and between published nodes an order that no later step changes.
 */
module LockFreeReach {
  import opened Common
  import opened LockFreeMachine
  import opened LockFreeShape

  /** The node found by following next k times. */
  function Iter<T>(m: Mem<T>, n: nat, k: nat): nat {
    if k == 0 then n else Next(m, Iter(m, n, k - 1))
  }

  ghost predicate Reaches<T>(m: Mem<T>, a: nat, b: nat) {
    exists k: nat :: Iter(m, a, k) == b
  }

  lemma IndexUnique(c: seq<nat>, k: nat)
    requires NoDup(c) && k < |c|
    ensures IndexOf(c, c[k]) == k
  {
  }

  lemma {:induction false} IterChain<T>(m: Mem<T>, home: map<nat, nat>, g: nat, c: seq<nat>, i: nat, k: nat)
    requires ChainOk(m, home, g, c) && i < |c|
    requires Next(m, TAIL) == NIL && Next(m, NIL) == NIL
    ensures Iter(m, c[i], k) == if i + k < |c| then c[i + k] else if i + k == |c| then TAIL else NIL
  {
    if k > 0 {
      IterChain(m, home, g, c, i, k - 1);
      if i + k - 1 < |c| {
        assert Next(m, c[i + k - 1]) == At(c, i + k);
      }
    }
  }

  lemma {:induction false} IterHead<T>(m: Mem<T>, home: map<nat, nat>, chains: seq<seq<nat>>, k: nat)
    requires ChainsOk(m, home, chains)
    ensures var c := chains[|chains| - 1];
            Iter(m, HEAD, k) ==
            if k == 0 then HEAD else if k <= |c| then c[k - 1] else if k == |c| + 1 then TAIL else NIL
  {
    var c := chains[|chains| - 1];
    assert ChainOk(m, home, |chains| - 1, c);
    if k > 0 {
      IterHead(m, home, chains, k - 1);
      if 1 <= k - 1 <= |c| {
        assert Next(m, c[k - 2]) == At(c, k - 1);
      }
    }
  }

  /** From head or any published node, next leads to the tail sentinel through distinct
      nodes, all of them published and none of them a sentinel. */
  ghost predicate EndsAtTail<T>(s: State<T>, n: nat, k: nat) {
    && Iter(s.mem, n, k) == TAIL
    && (forall i, j {:trigger Iter(s.mem, n, i), Iter(s.mem, n, j)} ::
          0 <= i < j <= k ==> Iter(s.mem, n, i) != Iter(s.mem, n, j))
    && (forall i {:trigger Iter(s.mem, n, i)} :: 0 < i < k ==> Iter(s.mem, n, i) in s.home && Iter(s.mem, n, i) > TAIL)
  }

  lemma ReachesTail<T>(s: State<T>, n: nat) returns (k: nat)
    requires Shape(s) && (n == HEAD || n in s.home)
    ensures EndsAtTail(s, n, k)
  {
    if n == HEAD {
      var g := |s.chains| - 1;
      var c := s.chains[g];
      assert ChainOk(s.mem, s.home, g, c);
      k := |c| + 1;
      forall i: nat
        ensures Iter(s.mem, n, i) ==
                if i == 0 then HEAD else if i <= |c| then c[i - 1] else if i == |c| + 1 then TAIL else NIL
      {
        IterHead(s.mem, s.home, s.chains, i);
      }
    } else {
      var g := s.home[n];
      var c := s.chains[g];
      assert ChainOk(s.mem, s.home, g, c);
      var p := IndexOf(c, n);
      k := |c| - p;
      forall i: nat
        ensures Iter(s.mem, n, i) == if p + i < |c| then c[p + i] else if p + i == |c| then TAIL else NIL
      {
        IterChain(s.mem, s.home, g, c, p, i);
      }
    }
  }

  lemma ReachesForward<T>(m: Mem<T>, home: map<nat, nat>, g: nat, c: seq<nat>, a: nat, b: nat)
    requires ChainOk(m, home, g, c) && Next(m, TAIL) == NIL && Next(m, NIL) == NIL
    requires a in c && b > TAIL && Reaches(m, a, b)
    ensures b in c && IndexOf(c, a) <= IndexOf(c, b)
  {
    var p := IndexOf(c, a);
    var k: nat :| Iter(m, a, k) == b;
    IterChain(m, home, g, c, p, k);
    IndexUnique(c, p + k);
  }

  lemma ReachesBack<T>(m: Mem<T>, home: map<nat, nat>, g: nat, c: seq<nat>, a: nat, b: nat)
    requires ChainOk(m, home, g, c) && Next(m, TAIL) == NIL && Next(m, NIL) == NIL
    requires a in c && b in c && IndexOf(c, a) <= IndexOf(c, b)
    ensures Reaches(m, a, b)
  {
    IterChain(m, home, g, c, IndexOf(c, a), IndexOf(c, b) - IndexOf(c, a));
  }

  /** Between published nodes, reachability is position in a common chain. */
  lemma ReachesIff<T>(s: State<T>, a: nat, b: nat)
    requires Shape(s) && a in s.home && b in s.home
    ensures Reaches(s.mem, a, b) <==>
            s.home[a] == s.home[b] && IndexOf(s.chains[s.home[a]], a) <= IndexOf(s.chains[s.home[a]], b)
  {
    var g := s.home[a];
    var c := s.chains[g];
    assert ChainOk(s.mem, s.home, g, c);
    HomeNodes(s.mem, s.home, s.chains);
    if Reaches(s.mem, a, b) {
      ReachesForward(s.mem, s.home, g, c, a, b);
    }
    if s.home[b] == g && IndexOf(c, a) <= IndexOf(c, b) {
      ReachesBack(s.mem, s.home, g, c, a, b);
    }
  }

  /** A published node is attached, that is reachable from head, exactly when its
      generation is the current one. */
  lemma AttachedIff<T>(s: State<T>, n: nat)
    requires Shape(s) && n in s.home
    ensures Reaches(s.mem, HEAD, n) <==> s.home[n] == Last(s)
  {
    var g := |s.chains| - 1;
    var c := s.chains[g];
    assert ChainOk(s.mem, s.home, g, c);
    HomeNodes(s.mem, s.home, s.chains);
    if Reaches(s.mem, HEAD, n) {
      var k: nat :| Iter(s.mem, HEAD, k) == n;
      IterHead(s.mem, s.home, s.chains, k);
    }
    if s.home[n] == g {
      IterHead(s.mem, s.home, s.chains, IndexOf(c, n) + 1);
    }
  }

  // ---------- What later steps preserve ----------

  predicate Before(c: seq<nat>, a: nat, b: nat) {
    a in c && b in c && IndexOf(c, a) <= IndexOf(c, b)
  }

  /** c' has the nodes of c, in the same order, and perhaps others. */
  ghost predicate SameOrder(c: seq<nat>, c': seq<nat>) {
    forall a, b {:trigger Before(c, a, b)} :: a in c && b in c ==> (Before(c, a, b) <==> Before(c', a, b))
  }

  /** Chains only grow, and keep the order of the nodes they have. */
  ghost predicate Ordered<T>(s: State<T>, s': State<T>) {
    && |s.chains| <= |s'.chains|
    && (forall n :: n in s.home ==> n in s'.home && s'.home[n] == s.home[n])
    && (forall g :: 0 <= g < |s.chains| ==> SameOrder(s.chains[g], s'.chains[g]))
  }

  lemma SplicedIndex(c: seq<nat>, i: nat, b: seq<nat>, n: nat)
    requires i <= |c| && NoDup(Spliced(c, i, b)) && n in c
    ensures n in Spliced(c, i, b)
    ensures IndexOf(Spliced(c, i, b), n) == IndexOf(c, n) + (if IndexOf(c, n) < i then 0 else |b|)
  {
    SplicedElems(c, i, b);
    var k := IndexOf(c, n);
    IndexUnique(Spliced(c, i, b), if k < i then k else k + |b|);
  }

  lemma SplicedOrder(c: seq<nat>, i: nat, b: seq<nat>)
    requires i <= |c| && NoDup(Spliced(c, i, b))
    ensures SameOrder(c, Spliced(c, i, b))
  {
    forall x, y {:trigger Before(c, x, y)} | x in c && y in c
      ensures Before(c, x, y) <==> Before(Spliced(c, i, b), x, y)
    {
      SplicedIndex(c, i, b, x);
      SplicedIndex(c, i, b, y);
    }
  }

  lemma SpliceOrdered(chains: seq<seq<nat>>, g: nat, i: nat, b: seq<nat>)
    requires g < |chains| && i <= |chains[g]|
    requires NoDup(chains[g]) && NoDup(b) && forall n :: n in b ==> n !in chains[g]
    ensures var chains' := chains[g := Spliced(chains[g], i, b)];
            forall h :: 0 <= h < |chains| ==> SameOrder(chains[h], chains'[h])
  {
    SplicedNoDup(chains[g], i, b);
    SplicedOrder(chains[g], i, b);
  }

  lemma PublishOrdered<T>(s: State<T>, t: nat, th: Thread<T>, pred: nat, b: seq<nat>)
    requires ChainsOk(s.mem, s.home, s.chains)
    requires EffectOk(s, t, th, Publish(pred, b))
    ensures var chains' := LandChains(s, th, Publish(pred, b));
            |chains'| == |s.chains| && forall g :: 0 <= g < |s.chains| ==> SameOrder(s.chains[g], chains'[g])
  {
    SpotIsNext(s, th, pred);
    var g := SpotGen(s, th, pred);
    assert ChainOk(s.mem, s.home, g, s.chains[g]);
    SpliceOrdered(s.chains, g, Spot(s, th, pred), b);
  }

  lemma HomeStays<T>(s: State<T>, t: nat, th: Thread<T>, e: Effect<T>)
    requires EffectOk(s, t, th, e)
    ensures forall n :: n in s.home ==> n in LandHome(s, th, e) && LandHome(s, th, e)[n] == s.home[n]
  {
  }

  lemma EffectOrdered<T>(s: State<T>, t: nat, th: Thread<T>, e: Effect<T>)
    requires ChainsOk(s.mem, s.home, s.chains) && EffectOk(s, t, th, e)
    ensures Ordered(s, Land(s, t, th, e))
  {
    HomeStays(s, t, th, e);
    if e.Publish? {
      PublishOrdered(s, t, th, e.pred, e.batch);
    }
  }

  lemma MoveOrdered<T>(s: State<T>, t: nat)
    requires Shape(s) && Can(s, Move(t))
    ensures Ordered(s, DoMove(s, t))
  {
    TurnEffect(s, t);
    EffectOrdered(s, t, s.threads[t], Turn(s.mem, s.threads[t].pc).1);
  }

  lemma DoOrdered<T>(s: State<T>, l: Label<T>)
    requires Shape(s) && Can(s, l)
    ensures Ordered(s, Do(s, l))
  {
    if l.Move? {
      MoveOrdered(s, l.tid);
    }
  }

  lemma OrderedTrans<T>(s1: State<T>, s2: State<T>, s3: State<T>)
    requires Ordered(s1, s2) && Ordered(s2, s3)
    ensures Ordered(s1, s3)
  {
    forall g | 0 <= g < |s1.chains|
      ensures SameOrder(s1.chains[g], s3.chains[g])
    {
      SameOrderTrans(s1.chains[g], s2.chains[g], s3.chains[g]);
    }
  }

  lemma SameOrderTrans(c1: seq<nat>, c2: seq<nat>, c3: seq<nat>)
    requires SameOrder(c1, c2) && SameOrder(c2, c3)
    ensures SameOrder(c1, c3)
  {
    forall a, b {:trigger Before(c1, a, b)} | a in c1 && b in c1
      ensures Before(c1, a, b) <==> Before(c3, a, b)
    {
      assert Before(c1, a, a) && Before(c1, b, b);
      assert Before(c2, a, b) <==> Before(c3, a, b);
    }
  }

  lemma {:induction false} RunOrdered<T>(run: seq<State<T>>, labels: seq<Label<T>>, i: nat, j: nat)
    requires IsRun(run, labels) && i <= j < |run|
    ensures Ordered(run[i], run[j])
    decreases j
  {
    if i < j {
      RunOrdered(run, labels, i, j - 1);
      RunShape(run, labels, j - 1);
      assert Can(run[j - 1], labels[j - 1]);
      DoOrdered(run[j - 1], labels[j - 1]);
      OrderedTrans(run[i], run[j - 1], run[j]);
    }
  }

  /** "a reaches b" between published nodes is permanent, and so is its failure. */
  lemma ReachesForever<T>(run: seq<State<T>>, labels: seq<Label<T>>, i: nat, j: nat, a: nat, b: nat)
    requires IsRun(run, labels) && i <= j < |run|
    requires a in run[i].home && b in run[i].home
    ensures a in run[j].home && b in run[j].home
    ensures Reaches(run[j].mem, a, b) <==> Reaches(run[i].mem, a, b)
  {
    RunShape(run, labels, i);
    RunShape(run, labels, j);
    RunOrdered(run, labels, i, j);
    ReachesIff(run[i], a, b);
    ReachesIff(run[j], a, b);
    var g := run[i].home[a];
    assert g < |run[i].chains| && a in run[i].chains[g];
    assert b in run[i].chains[g] ==> (Before(run[i].chains[g], a, b) <==> Before(run[j].chains[g], a, b));
  }

  /** A node that Clear has cut off never becomes reachable from head again. */
  lemma DetachedForever<T>(run: seq<State<T>>, labels: seq<Label<T>>, i: nat, j: nat, n: nat)
    requires IsRun(run, labels) && i <= j < |run|
    requires n in run[i].home && !Reaches(run[i].mem, HEAD, n)
    ensures !Reaches(run[j].mem, HEAD, n)
  {
    RunShape(run, labels, i);
    RunShape(run, labels, j);
    RunOrdered(run, labels, i, j);
    AttachedIff(run[i], n);
    AttachedIff(run[j], n);
  }

  /** Insert has found the node it inserts after, or is about to step past it. */
  predicate AfterPred<T>(pc: PC<T>) {
    pc.InsertAdvance? || pc.InsertNext? || pc.InsertStore? || pc.InsertCas?
  }

  /** The loops' test `curr != nil` is never decided by a nil: no thread ever holds one. */
  lemma NeverNil<T>(s: State<T>, t: nat)
    requires Shape(s) && t in s.threads
    ensures var pc := s.threads[t].pc;
            && (pc.AppendWalk? || pc.InsertTest? || (Walking(pc) && !pc.WalkHead?) ==> pc.curr != NIL)
            && (pc.AppendWalk? || pc.InsertTest? || AfterPred(pc) ==> pc.pred != NIL && pc.pred != TAIL)
  {
    var th := s.threads[t];
    assert PlaceOk(s, th);
    forall n: nat | AtNode(s, th, n)
      ensures n > TAIL
    {
      AtNodeHome(s, th, n);
    }
  }
}
