/**
 The shape of the lock-free list in every reachable state: every published node lies on
 exactly one generation's chain, linked in order up to the tail sentinel, and every thread
 only holds nodes of the generation it started from.
 */
module LockFreeShape {
  import opened Common
  import opened LockFreeMachine

  // ---------- The invariant ----------

  /** The node at index i of a chain, which ends at the tail sentinel. */
  function At(c: seq<nat>, i: nat): nat {
    if i < |c| then c[i] else TAIL
  }

  ghost predicate ChainOk<T>(m: Mem<T>, home: map<nat, nat>, g: nat, c: seq<nat>) {
    && NoDup(c)
    && (forall i :: 0 <= i < |c| ==> TAIL < c[i] < m.brk && c[i] in home && home[c[i]] == g)
    && (forall i {:trigger Next(m, c[i])} :: 0 <= i < |c| ==> Next(m, c[i]) == At(c, i + 1))
  }

  ghost predicate ChainsOk<T>(m: Mem<T>, home: map<nat, nat>, chains: seq<seq<nat>>) {
    && |chains| > 0
    && m.brk > TAIL
    && Next(m, HEAD) == At(chains[|chains| - 1], 0)
    && Next(m, TAIL) == NIL && Next(m, NIL) == NIL
    && Cell(m, HEAD).Nil? && Cell(m, TAIL).Nil?
    && (forall g :: 0 <= g < |chains| ==> ChainOk(m, home, g, chains[g]))
    && (forall n :: n in home ==> home[n] < |chains| && n in chains[home[n]])
  }

  /** b is a chain of nodes only thread t can see, holding the elements vals. */
  ghost predicate Batch<T>(s: State<T>, t: nat, b: seq<nat>, vals: seq<T>) {
    && |b| == |vals| > 0
    && NoDup(b)
    && forall j :: 0 <= j < |b| ==>
         && TAIL < b[j] < s.mem.brk && b[j] !in s.home
         && b[j] in s.owner && s.owner[b[j]] == t
         && Cell(s.mem, b[j]).Ref? && Cell(s.mem, b[j]).value == vals[j]
  }

  ghost predicate Linked<T>(m: Mem<T>, b: seq<nat>, end: nat) {
    forall j {:trigger Next(m, b[j])} :: 0 <= j < |b| ==> Next(m, b[j]) == if j + 1 < |b| then b[j + 1] else end
  }

  /** n is a node of the generation that was attached when th last loaded head.next. */
  ghost predicate AtNode<T>(s: State<T>, th: Thread<T>, n: nat) {
    th.gen < |s.chains| && n in s.chains[th.gen]
  }

  ghost predicate AtCurr<T>(s: State<T>, th: Thread<T>, n: nat) {
    n == TAIL || AtNode(s, th, n)
  }

  ghost predicate AtPred<T>(s: State<T>, th: Thread<T>, n: nat) {
    n == HEAD || AtNode(s, th, n)
  }

  /** The private nodes of a thread. */
  ghost predicate OwnOk<T>(s: State<T>, t: nat, th: Thread<T>) {
    match th.pc
    case AppendHead(b) => th.op.Append? && Batch(s, t, b, th.op.elems) && Linked(s.mem, b, TAIL)
    case AppendWalk(b, _, _) => th.op.Append? && Batch(s, t, b, th.op.elems) && Linked(s.mem, b, TAIL)
    case HeadLoad(n) => th.op.Insert? && th.op.index == 0 && Batch(s, t, [n], [th.op.elem])
    case HeadStore(n, _) => th.op.Insert? && th.op.index == 0 && Batch(s, t, [n], [th.op.elem])
    case HeadCas(n, first) =>
      th.op.Insert? && th.op.index == 0 && Batch(s, t, [n], [th.op.elem]) && Linked(s.mem, [n], first)
    case InsertHead(n, index) => th.op.Insert? && th.op.index == index > 0 && Batch(s, t, [n], [th.op.elem])
    case InsertTest(n, index, _, _, _) => th.op.Insert? && th.op.index == index > 0 && Batch(s, t, [n], [th.op.elem])
    case InsertAdvance(n, index, _, _) => th.op.Insert? && th.op.index == index > 0 && Batch(s, t, [n], [th.op.elem])
    case InsertNext(n, index, _) => th.op.Insert? && th.op.index == index > 0 && Batch(s, t, [n], [th.op.elem])
    case InsertStore(n, index, _, _) => th.op.Insert? && th.op.index == index > 0 && Batch(s, t, [n], [th.op.elem])
    case InsertCas(n, index, _, succ) =>
      th.op.Insert? && th.op.index == index > 0 && Batch(s, t, [n], [th.op.elem]) && Linked(s.mem, [n], succ)
    case _ => true
  }

  /** The shared nodes a thread holds. */
  ghost predicate PlaceOk<T>(s: State<T>, th: Thread<T>) {
    match th.pc
    case AppendWalk(_, pred, curr) => AtPred(s, th, pred) && AtCurr(s, th, curr)
    case InsertTest(_, index, pred, curr, i) => AtPred(s, th, pred) && AtCurr(s, th, curr) && i < index
    case InsertAdvance(_, index, pred, i) => AtNode(s, th, pred) && i < index
    case InsertNext(_, _, pred) => AtNode(s, th, pred)
    case InsertStore(_, _, pred, _) => AtNode(s, th, pred)
    case InsertCas(_, _, pred, _) => AtNode(s, th, pred)
    case ClearLoad => th.op.Clear?
    case ClearCas(_) => th.op.Clear?
    case WalkHead(w) => WalkPlace(s, th, w) && Unstarted(w)
    case WalkTest(w, curr) => WalkPlace(s, th, w) && AtCurr(s, th, curr)
    case WalkAdvance(w, curr) => WalkPlace(s, th, w) && AtNode(s, th, curr)
    case WalkCas(w, curr, v) =>
      WalkPlace(s, th, w) && AtNode(s, th, curr) && v.Ref? && !w.SliceW? && CasHolds(th, w, curr, v)
    case WalkReload(w, curr) => WalkPlace(s, th, w) && AtNode(s, th, curr) && w.SetW? && w.i == w.index
    case _ => true
  }

  /** Nothing has been counted or remembered yet. */
  predicate Unstarted<T>(w: Walk<T>) {
    (w.SetW? || w.RemoveAtW? ==> w.i == 0) && (w.LastW? ==> w.last == NIL)
  }

  /** A walk belongs to the operation of its thread. */
  ghost predicate WalkPlace<T>(s: State<T>, th: Thread<T>, w: Walk<T>) {
    match w
    case SetW(index, box, i) =>
      th.op.SetAt? && th.op.index == index && i <= index && box.Ref? && box.value == th.op.elem
    case RemoveAtW(index, i) => th.op.RemoveAt? && th.op.index == index && i <= index
    case FirstW => th.op.RemoveFirst?
    case LastW(last, lastVal) =>
      th.op.RemoveLast? && (last != NIL ==> AtNode(s, th, last) && lastVal.Ref?)
    case MatchW(matches) => th.op.Remove? && th.op.matches == matches
    case FuncW(pred, removed) => th.op.RemoveFunc? && th.op.pred == pred && removed == th.made
    case SliceW(_, _, _) => th.op.ToSlice?
  }

  /** What the thread established before it attempts the CAS. */
  ghost predicate CasHolds<T>(th: Thread<T>, w: Walk<T>, curr: nat, v: Ptr<T>)
    requires v.Ref?
  {
    match w
    case MatchW(matches) => matches(v.value)
    case FuncW(pred, _) => pred(v.value)
    case LastW(last, lastVal) => last == curr && lastVal == v
    case SetW(index, _, i) => i == index
    case RemoveAtW(index, i) => i == index
    case _ => true
  }

  ghost predicate Shape<T>(s: State<T>) {
    && ChainsOk(s.mem, s.home, s.chains)
    && |s.logs| == |s.chains| == |s.cuts| + 1
    && (forall a :: a in s.owner ==> a < s.mem.brk)
    && forall t :: t in s.threads ==> OwnOk(s, t, s.threads[t]) && PlaceOk(s, s.threads[t])
  }

  // ---------- One effect ----------

  /** What the acting thread knows about its effect. */
  ghost predicate EffectOk<T>(s: State<T>, t: nat, th: Thread<T>, e: Effect<T>) {
    match e
    case Link(n, _) => n > TAIL && n !in s.home && n in s.owner && s.owner[n] == t
    case Publish(pred, b) =>
      && (th.op.Append? || th.op.Insert?)
      && Batch(s, t, b, if th.op.Append? then th.op.elems else [th.op.elem])
      && AtPred(s, th, pred) && Linked(s.mem, b, Next(s.mem, pred))
      && (th.op.Append? ==> Next(s.mem, pred) == TAIL)
      && (th.op.Insert? && th.op.index == 0 ==> pred == HEAD)
    case Cut => th.op.Clear?
    case Swap(n, box) => AtNode(s, th, n) && Cell(s.mem, n).Ref? && (th.op.SetAt? <==> box.Ref?)
    case _ => true
  }

  lemma TurnEffect<T>(s: State<T>, t: nat)
    requires Shape(s) && t in s.threads
    ensures EffectOk(s, t, s.threads[t], Turn(s.mem, s.threads[t].pc).1)
  {
    var th := s.threads[t];
    assert OwnOk(s, t, th) && PlaceOk(s, th);
    match th.pc
    case HeadStore(n, _) => assert [n][0] == n;
    case InsertStore(n, _, _, _) => assert [n][0] == n;
    case _ =>
  }

  lemma SpotIsNext<T>(s: State<T>, th: Thread<T>, pred: nat)
    requires ChainsOk(s.mem, s.home, s.chains) && AtPred(s, th, pred)
    ensures SpotGen(s, th, pred) < |s.chains|
    ensures At(Chain(s, SpotGen(s, th, pred)), Spot(s, th, pred)) == Next(s.mem, pred)
    ensures pred == HEAD ==> Spot(s, th, pred) == 0 && SpotGen(s, th, pred) == Last(s)
    ensures pred != HEAD ==> Spot(s, th, pred) > 0 && Chain(s, SpotGen(s, th, pred))[Spot(s, th, pred) - 1] == pred
  {
    var g := SpotGen(s, th, pred);
    var c := s.chains[g];
    assert ChainOk(s.mem, s.home, g, c);
    if pred != HEAD {
      NextAfter(s.mem, s.home, g, c, IndexOf(c, pred));
    }
  }

  /** The successor of a node of a chain. */
  lemma NextAfter<T>(m: Mem<T>, home: map<nat, nat>, g: nat, c: seq<nat>, i: nat)
    requires ChainOk(m, home, g, c) && i < |c|
    ensures Next(m, c[i]) == At(c, i + 1)
  {
  }

  lemma SplicedElems(c: seq<nat>, i: nat, b: seq<nat>)
    requires i <= |c|
    ensures |Spliced(c, i, b)| == |c| + |b|
    ensures forall k :: 0 <= k < i ==> Spliced(c, i, b)[k] == c[k]
    ensures forall k :: i <= k < i + |b| ==> Spliced(c, i, b)[k] == b[k - i]
    ensures forall k :: i + |b| <= k < |c| + |b| ==> Spliced(c, i, b)[k] == c[k - |b|]
    ensures forall n :: n in Spliced(c, i, b) <==> n in c || n in b
  {
    assert c == c[..i] + c[i..];
  }

  lemma SplicedNoDup(c: seq<nat>, i: nat, b: seq<nat>)
    requires i <= |c| && NoDup(c) && NoDup(b)
    requires forall n :: n in b ==> n !in c
    ensures NoDup(Spliced(c, i, b))
  {
    var d: seq<nat> := Spliced(c, i, b);
    SplicedElems(c, i, b);
    forall j, k | 0 <= j < k < |d|
      ensures d[j] != d[k]
    {
      var x := if j < i then c[j] else if j < i + |b| then b[j - i] else c[j - |b|];
      var y := if k < i then c[k] else if k < i + |b| then b[k - i] else c[k - |b|];
      assert d[j] == x && d[k] == y;
      assert (i <= j < i + |b| ==> x in b) && (i <= k < i + |b| ==> y in b);
    }
  }

  /** A chain is untouched by a change that leaves its own links alone. */
  lemma ChainFrame<T>(m: Mem<T>, m': Mem<T>, home: map<nat, nat>, home': map<nat, nat>, g: nat, c: seq<nat>)
    requires ChainOk(m, home, g, c) && m.brk <= m'.brk
    requires forall n :: n in c ==> Next(m', n) == Next(m, n) && n in home' && home'[n] == g
    ensures ChainOk(m', home', g, c)
  {
    forall i {:trigger Next(m', c[i])} | 0 <= i < |c|
      ensures Next(m', c[i]) == At(c, i + 1)
    {
      assert Next(m, c[i]) == At(c, i + 1);
    }
  }

  lemma SplicedLinks<T>(m: Mem<T>, m': Mem<T>, home: map<nat, nat>, g: nat, c: seq<nat>, i: nat, b: seq<nat>, pred: nat)
    requires ChainOk(m, home, g, c) && i <= |c| && b != []
    requires m' == m.(next := m.next[pred := b[0]])
    requires if i == 0 then pred == HEAD else pred == c[i - 1]
    requires forall j :: 0 <= j < |b| ==> TAIL < b[j] && b[j] !in home
    requires Linked(m, b, At(c, i))
    ensures var d := Spliced(c, i, b);
            forall k {:trigger Next(m', d[k])} :: 0 <= k < |d| ==> Next(m', d[k]) == At(d, k + 1)
  {
    var d: seq<nat> := Spliced(c, i, b);
    SplicedElems(c, i, b);
    forall k {:trigger Next(m', d[k])} | 0 <= k < |d|
      ensures Next(m', d[k]) == At(d, k + 1)
    {
      if k < i {
        assert d[k] == c[k] && Next(m, c[k]) == At(c, k + 1);
        if k + 1 < i {
          assert d[k] != pred;
        }
      } else if k < i + |b| {
        assert d[k] == b[k - i] && d[k] != pred;
        assert Next(m, b[k - i]) == At(d, k + 1);
      } else {
        assert d[k] == c[k - |b|] && d[k] != pred;
        assert Next(m, c[k - |b|]) == At(c, k - |b| + 1);
      }
    }
  }

  lemma SplicedChain<T>(m: Mem<T>, m': Mem<T>, home: map<nat, nat>, home': map<nat, nat>, g: nat,
                        c: seq<nat>, i: nat, b: seq<nat>, pred: nat)
    requires ChainOk(m, home, g, c) && i <= |c| && b != []
    requires m' == m.(next := m.next[pred := b[0]]) && home' == Rehomed(home, b, g)
    requires if i == 0 then pred == HEAD else pred == c[i - 1]
    requires NoDup(b) && forall j :: 0 <= j < |b| ==> TAIL < b[j] < m.brk && b[j] !in home
    requires Linked(m, b, At(c, i))
    ensures ChainOk(m', home', g, Spliced(c, i, b))
  {
    SplicedElems(c, i, b);
    SplicedNoDup(c, i, b);
    SplicedLinks(m, m', home, g, c, i, b, pred);
    var d: seq<nat> := Spliced(c, i, b);
    forall k | 0 <= k < |d|
      ensures TAIL < d[k] < m'.brk && d[k] in home' && home'[d[k]] == g
    {
      assert d[k] in c || d[k] in b;
    }
  }

  lemma SplicedHome(home: map<nat, nat>, chains: seq<seq<nat>>, g: nat, i: nat, b: seq<nat>)
    requires g < |chains| && i <= |chains[g]|
    requires forall n :: n in home ==> home[n] < |chains| && n in chains[home[n]]
    ensures var home' := Rehomed(home, b, g);
            forall n :: n in home' ==> home'[n] < |chains| && n in chains[g := Spliced(chains[g], i, b)][home'[n]]
  {
    SplicedElems(chains[g], i, b);
  }

  lemma OtherChains<T>(m: Mem<T>, m': Mem<T>, home: map<nat, nat>, home': map<nat, nat>, chains: seq<seq<nat>>, g: nat)
    requires m.brk <= m'.brk
    requires forall h :: 0 <= h < |chains| ==> ChainOk(m, home, h, chains[h])
    requires forall n :: n in home && home[n] != g ==> Next(m', n) == Next(m, n) && n in home' && home'[n] == home[n]
    ensures forall h :: 0 <= h < |chains| && h != g ==> ChainOk(m', home', h, chains[h])
  {
    forall h | 0 <= h < |chains| && h != g
      ensures ChainOk(m', home', h, chains[h])
    {
      assert ChainOk(m, home, h, chains[h]);
      ChainFrame(m, m', home, home', h, chains[h]);
    }
  }

  lemma SplicedAll<T>(m: Mem<T>, home: map<nat, nat>, chains: seq<seq<nat>>, g: nat, i: nat, b: seq<nat>, pred: nat)
    requires forall h :: 0 <= h < |chains| ==> ChainOk(m, home, h, chains[h])
    requires g < |chains| && i <= |chains[g]| && b != []
    requires if i == 0 then pred == HEAD else pred == chains[g][i - 1]
    requires NoDup(b) && forall j :: 0 <= j < |b| ==> TAIL < b[j] < m.brk && b[j] !in home
    requires forall n :: n in home ==> n > TAIL
    requires Linked(m, b, At(chains[g], i))
    ensures var m' := m.(next := m.next[pred := b[0]]);
            var home' := Rehomed(home, b, g);
            var chains' := chains[g := Spliced(chains[g], i, b)];
            forall h :: 0 <= h < |chains'| ==> ChainOk(m', home', h, chains'[h])
  {
    var m' := m.(next := m.next[pred := b[0]]);
    var home' := Rehomed(home, b, g);
    var c := chains[g];
    assert ChainOk(m, home, g, c);
    SplicedChain(m, m', home, home', g, c, i, b, pred);
    assert pred == HEAD || (pred in home && home[pred] == g);
    OtherChains(m, m', home, home', chains, g);
  }

  lemma SplicedFirst<T>(m: Mem<T>, chains: seq<seq<nat>>, g: nat, i: nat, b: seq<nat>, pred: nat)
    requires g < |chains| && i <= |chains[g]| && b != []
    requires if i == 0 then pred == HEAD && g == |chains| - 1 else pred == chains[g][i - 1] && pred > TAIL
    requires Next(m, HEAD) == At(chains[|chains| - 1], 0)
    ensures var m' := m.(next := m.next[pred := b[0]]);
            var chains' := chains[g := Spliced(chains[g], i, b)];
            Next(m', HEAD) == At(chains'[|chains'| - 1], 0)
  {
    SplicedElems(chains[g], i, b);
  }

  lemma SplicedRest<T>(m: Mem<T>, home: map<nat, nat>, chains: seq<seq<nat>>, g: nat, i: nat, b: seq<nat>, pred: nat)
    requires Next(m, TAIL) == NIL && Next(m, NIL) == NIL
    requires forall n :: n in home ==> home[n] < |chains| && n in chains[home[n]]
    requires g < |chains| && i <= |chains[g]| && b != []
    requires if i == 0 then pred == HEAD && g == |chains| - 1 else pred == chains[g][i - 1] && pred > TAIL
    requires Next(m, HEAD) == At(chains[|chains| - 1], 0)
    ensures var m' := m.(next := m.next[pred := b[0]]);
            var home' := Rehomed(home, b, g);
            var chains' := chains[g := Spliced(chains[g], i, b)];
            && Next(m', HEAD) == At(chains'[|chains'| - 1], 0)
            && Next(m', TAIL) == NIL && Next(m', NIL) == NIL
            && forall n :: n in home' ==> home'[n] < |chains'| && n in chains'[home'[n]]
  {
    SplicedFirst(m, chains, g, i, b, pred);
    SplicedHome(home, chains, g, i, b);
  }

  lemma SplicedParts<T>(m: Mem<T>, home: map<nat, nat>, chains: seq<seq<nat>>, g: nat, i: nat, b: seq<nat>, pred: nat)
    requires forall h :: 0 <= h < |chains| ==> ChainOk(m, home, h, chains[h])
    requires |chains| > 0 && m.brk > TAIL
    requires Next(m, TAIL) == NIL && Next(m, NIL) == NIL && Cell(m, HEAD).Nil? && Cell(m, TAIL).Nil?
    requires Next(m, HEAD) == At(chains[|chains| - 1], 0)
    requires forall n :: n in home ==> n > TAIL && home[n] < |chains| && n in chains[home[n]]
    requires g < |chains| && i <= |chains[g]| && b != []
    requires if i == 0 then pred == HEAD && g == |chains| - 1 else pred == chains[g][i - 1] && pred > TAIL
    requires NoDup(b) && forall j :: 0 <= j < |b| ==> TAIL < b[j] < m.brk && b[j] !in home
    requires Linked(m, b, At(chains[g], i))
    ensures var home' := Rehomed(home, b, g);
            ChainsOk(m.(next := m.next[pred := b[0]]), home', chains[g := Spliced(chains[g], i, b)])
  {
    SplicedRest(m, home, chains, g, i, b, pred);
    SplicedAll(m, home, chains, g, i, b, pred);
  }

  lemma SplicedChains<T>(m: Mem<T>, home: map<nat, nat>, chains: seq<seq<nat>>, g: nat, i: nat, b: seq<nat>, pred: nat)
    requires ChainsOk(m, home, chains)
    requires g < |chains| && i <= |chains[g]| && b != []
    requires At(chains[g], i) == Next(m, pred)
    requires if i == 0 then pred == HEAD && g == |chains| - 1 else pred == chains[g][i - 1]
    requires NoDup(b) && forall j :: 0 <= j < |b| ==> TAIL < b[j] < m.brk && b[j] !in home
    requires Linked(m, b, Next(m, pred))
    ensures var home' := Rehomed(home, b, g);
            ChainsOk(m.(next := m.next[pred := b[0]]), home', chains[g := Spliced(chains[g], i, b)])
  {
    HomeNodes(m, home, chains);
    assert pred == HEAD || pred > TAIL by {
      assert ChainOk(m, home, g, chains[g]);
    }
    SplicedParts(m, home, chains, g, i, b, pred);
  }

  lemma HomeNodes<T>(m: Mem<T>, home: map<nat, nat>, chains: seq<seq<nat>>)
    requires ChainsOk(m, home, chains)
    ensures forall n :: n in home ==> TAIL < n < m.brk
  {
    forall n | n in home
      ensures TAIL < n < m.brk
    {
      assert ChainOk(m, home, home[n], chains[home[n]]);
    }
  }

  lemma FrameChains<T>(m: Mem<T>, m': Mem<T>, home: map<nat, nat>, chains: seq<seq<nat>>)
    requires ChainsOk(m, home, chains)
    requires m.brk <= m'.brk
    requires forall n: nat :: n in home || n <= TAIL ==> Next(m', n) == Next(m, n)
    requires Cell(m', HEAD).Nil? && Cell(m', TAIL).Nil?
    ensures ChainsOk(m', home, chains)
  {
    forall h | 0 <= h < |chains|
      ensures ChainOk(m', home, h, chains[h])
    {
      assert ChainOk(m, home, h, chains[h]);
      ChainFrame(m, m', home, home, h, chains[h]);
    }
  }

  lemma CutChains<T>(m: Mem<T>, home: map<nat, nat>, chains: seq<seq<nat>>)
    requires ChainsOk(m, home, chains)
    ensures ChainsOk(m.(next := m.next[HEAD := TAIL]), home, chains + [[]])
  {
    var m' := m.(next := m.next[HEAD := TAIL]);
    forall h | 0 <= h < |chains|
      ensures ChainOk(m', home, h, chains[h])
    {
      assert ChainOk(m, home, h, chains[h]);
      ChainFrame(m, m', home, home, h, chains[h]);
    }
  }

  /** Whatever a thread does next leaves every chain well linked. */
  lemma EffectChains<T>(s: State<T>, t: nat, th: Thread<T>, e: Effect<T>)
    requires ChainsOk(s.mem, s.home, s.chains)
    requires EffectOk(s, t, th, e)
    ensures ChainsOk(Write(s.mem, e), LandHome(s, th, e), LandChains(s, th, e))
  {
    match e
    case Publish(pred, b) =>
      SpotIsNext(s, th, pred);
      SplicedChains(s.mem, s.home, s.chains, SpotGen(s, th, pred), Spot(s, th, pred), b, pred);
    case Cut => CutChains(s.mem, s.home, s.chains);
    case Swap(n, _) =>
      assert ChainOk(s.mem, s.home, th.gen, s.chains[th.gen]);
      FrameChains(s.mem, Write(s.mem, e), s.home, s.chains);
    case _ => FrameChains(s.mem, Write(s.mem, e), s.home, s.chains);
  }

  // ---------- Interference ----------

  /** Nodes never leave a generation. */
  ghost predicate Grows(chains: seq<seq<nat>>, chains': seq<seq<nat>>) {
    && |chains| <= |chains'|
    && forall g, n :: 0 <= g < |chains| && n in chains[g] ==> n in chains'[g]
  }

  /** The private nodes of thread u are as they were. */
  ghost predicate Keeps<T>(m: Mem<T>, home: map<nat, nat>, owner: map<nat, nat>,
                           m': Mem<T>, home': map<nat, nat>, owner': map<nat, nat>, u: nat) {
    && m.brk <= m'.brk
    && forall n :: n in owner && owner[n] == u && n !in home && n > TAIL ==>
         n in owner' && owner'[n] == u && n !in home' && Next(m', n) == Next(m, n) && Cell(m', n) == Cell(m, n)
  }

  lemma EffectGrows<T>(s: State<T>, t: nat, th: Thread<T>, e: Effect<T>)
    requires ChainsOk(s.mem, s.home, s.chains)
    requires EffectOk(s, t, th, e)
    ensures Grows(s.chains, LandChains(s, th, e))
  {
    if e.Publish? {
      SpotIsNext(s, th, e.pred);
      SplicedElems(Chain(s, SpotGen(s, th, e.pred)), Spot(s, th, e.pred), e.batch);
    }
  }

  lemma AtNodeHome<T>(s: State<T>, th: Thread<T>, n: nat)
    requires ChainsOk(s.mem, s.home, s.chains) && AtNode(s, th, n)
    ensures n in s.home && s.home[n] == th.gen && TAIL < n < s.mem.brk
  {
    assert ChainOk(s.mem, s.home, th.gen, s.chains[th.gen]);
  }

  lemma PublishKeeps<T>(s: State<T>, t: nat, th: Thread<T>, pred: nat, b: seq<nat>, u: nat)
    requires pred == HEAD || pred in s.home
    requires b != [] && u != t
    requires forall j :: 0 <= j < |b| ==> b[j] in s.owner && s.owner[b[j]] == t
    ensures var e := Publish(pred, b);
            Keeps(s.mem, s.home, s.owner, Write(s.mem, e), LandHome(s, th, e), s.owner, u)
  {
  }

  lemma EffectKeeps<T>(s: State<T>, t: nat, th: Thread<T>, e: Effect<T>, u: nat)
    requires ChainsOk(s.mem, s.home, s.chains)
    requires EffectOk(s, t, th, e) && u != t
    ensures Keeps(s.mem, s.home, s.owner, Write(s.mem, e), LandHome(s, th, e), s.owner, u)
  {
    match e
    case Publish(pred, b) =>
      if pred != HEAD {
        AtNodeHome(s, th, pred);
      }
      PublishKeeps(s, t, th, pred, b, u);
    case Swap(n, _) => AtNodeHome(s, th, n);
    case _ =>
  }

  lemma KeepsBatch<T>(s: State<T>, s': State<T>, u: nat, b: seq<nat>, vals: seq<T>)
    requires Keeps(s.mem, s.home, s.owner, s'.mem, s'.home, s'.owner, u) && Batch(s, u, b, vals)
    ensures Batch(s', u, b, vals)
    ensures forall end: nat :: Linked(s.mem, b, end) ==> Linked(s'.mem, b, end)
  {
    forall end: nat | Linked(s.mem, b, end)
      ensures Linked(s'.mem, b, end)
    {
      forall j {:trigger Next(s'.mem, b[j])} | 0 <= j < |b|
        ensures Next(s'.mem, b[j]) == if j + 1 < |b| then b[j + 1] else end
      {
        assert Next(s.mem, b[j]) == if j + 1 < |b| then b[j + 1] else end;
      }
    }
  }

  lemma OthersOwn<T>(s: State<T>, s': State<T>, u: nat, th: Thread<T>)
    requires Keeps(s.mem, s.home, s.owner, s'.mem, s'.home, s'.owner, u) && OwnOk(s, u, th)
    ensures OwnOk(s', u, th)
  {
    match th.pc
    case AppendHead(b) => KeepsBatch(s, s', u, b, th.op.elems);
    case AppendWalk(b, _, _) => KeepsBatch(s, s', u, b, th.op.elems);
    case HeadLoad(n) => KeepsBatch(s, s', u, [n], [th.op.elem]);
    case HeadStore(n, _) => KeepsBatch(s, s', u, [n], [th.op.elem]);
    case HeadCas(n, _) => KeepsBatch(s, s', u, [n], [th.op.elem]);
    case InsertHead(n, _) => KeepsBatch(s, s', u, [n], [th.op.elem]);
    case InsertTest(n, _, _, _, _) => KeepsBatch(s, s', u, [n], [th.op.elem]);
    case InsertAdvance(n, _, _, _) => KeepsBatch(s, s', u, [n], [th.op.elem]);
    case InsertNext(n, _, _) => KeepsBatch(s, s', u, [n], [th.op.elem]);
    case InsertStore(n, _, _, _) => KeepsBatch(s, s', u, [n], [th.op.elem]);
    case InsertCas(n, _, _, _) => KeepsBatch(s, s', u, [n], [th.op.elem]);
    case _ =>
  }

  lemma OthersPlace<T>(s: State<T>, s': State<T>, th: Thread<T>)
    requires Grows(s.chains, s'.chains) && PlaceOk(s, th)
    ensures PlaceOk(s', th)
  {
  }

  // ---------- The acting thread ----------

  lemma NextAtCurr<T>(s: State<T>, th: Thread<T>, n: nat)
    requires ChainsOk(s.mem, s.home, s.chains) && AtNode(s, th, n)
    ensures n > TAIL && AtCurr(s, th, Next(s.mem, n))
  {
    var c := s.chains[th.gen];
    assert ChainOk(s.mem, s.home, th.gen, c);
    var i :| 0 <= i < |c| && c[i] == n;
    assert Next(s.mem, c[i]) == At(c, i + 1);
  }

  lemma HeadAtCurr<T>(s: State<T>, th: Thread<T>)
    requires ChainsOk(s.mem, s.home, s.chains) && th.gen == Last(s)
    ensures AtCurr(s, th, Next(s.mem, HEAD))
  {
  }

  lemma SelfPlaceHead<T>(s: State<T>, t: nat)
    requires Shape(s) && t in s.threads
    requires LoadsHead(s.threads[t].pc)
    ensures PlaceOk(s, Stepped(s, s.threads[t]))
  {
    var th := s.threads[t];
    assert OwnOk(s, t, th) && PlaceOk(s, th);
    HeadAtCurr(s, Stepped(s, th));
  }

  lemma SelfPlaceLink<T>(s: State<T>, t: nat)
    requires Shape(s) && t in s.threads
    requires var pc := s.threads[t].pc;
             !pc.WalkTest? && !pc.WalkAdvance? && !pc.WalkCas? && !pc.WalkReload? && !LoadsHead(pc)
    ensures PlaceOk(s, Stepped(s, s.threads[t]))
  {
    var th := s.threads[t];
    assert OwnOk(s, t, th) && PlaceOk(s, th);
    match th.pc
    case AppendWalk(_, _, curr) => if curr != TAIL { NextAtCurr(s, th, curr); }
    case InsertAdvance(_, _, pred, _) => NextAtCurr(s, th, pred);
    case _ =>
  }

  lemma VisitPlace<T>(s: State<T>, th: Thread<T>, w: Walk<T>, curr: nat, v: Ptr<T>)
    requires WalkPlace(s, th, w) && AtNode(s, th, curr) && curr != NIL
    ensures PlaceOk(s, th.(pc := Visit(w, curr, v)))
  {
  }

  lemma WalkEndPlace<T>(s: State<T>, th: Thread<T>, w: Walk<T>)
    requires WalkPlace(s, th, w)
    ensures PlaceOk(s, th.(pc := WalkEnd(w)))
  {
  }

  lemma CasPlace<T>(s: State<T>, th: Thread<T>, w: Walk<T>, curr: nat, v: Ptr<T>)
    requires th.pc == WalkCas(w, curr, v) && PlaceOk(s, th)
    ensures PlaceOk(s, Stepped(s, th))
  {
    if SamePtr(Cell(s.mem, curr), v) {
      WonPlace(s, th, w, curr, v);
    } else {
      LostPlace(s, th, w, curr);
    }
  }

  lemma WonPlace<T>(s: State<T>, th: Thread<T>, w: Walk<T>, curr: nat, v: Ptr<T>)
    requires WalkPlace(s, th, w) && AtNode(s, th, curr) && v.Ref?
    ensures PlaceOk(s, th.(pc := CasWon(w, curr, v), made := th.made + 1))
  {
  }

  lemma LostPlace<T>(s: State<T>, th: Thread<T>, w: Walk<T>, curr: nat)
    requires WalkPlace(s, th, w) && AtNode(s, th, curr) && (w.SetW? ==> w.i == w.index)
    ensures PlaceOk(s, th.(pc := CasLost(w, curr)))
  {
  }

  lemma TestPlace<T>(s: State<T>, th: Thread<T>, w: Walk<T>, curr: nat)
    requires ChainsOk(s.mem, s.home, s.chains) && th.pc == WalkTest(w, curr) && PlaceOk(s, th)
    ensures PlaceOk(s, Stepped(s, th))
  {
    if curr == TAIL {
      WalkEndPlace(s, th, w);
      assert Stepped(s, th) == th.(pc := WalkEnd(w));
    } else {
      AtNodeHome(s, th, curr);
      VisitPlace(s, th, w, curr, Cell(s.mem, curr));
      assert Stepped(s, th) == th.(pc := Visit(w, curr, Cell(s.mem, curr)));
    }
  }

  lemma AdvancePlace<T>(s: State<T>, th: Thread<T>)
    requires ChainsOk(s.mem, s.home, s.chains) && PlaceOk(s, th) && (th.pc.WalkAdvance? || th.pc.WalkReload?)
    ensures PlaceOk(s, Stepped(s, th))
  {
    NextAtCurr(s, th, th.pc.curr);
  }

  lemma SelfPlaceWalk<T>(s: State<T>, th: Thread<T>)
    requires ChainsOk(s.mem, s.home, s.chains) && PlaceOk(s, th)
    requires th.pc.WalkTest? || th.pc.WalkAdvance? || th.pc.WalkCas? || th.pc.WalkReload?
    ensures PlaceOk(s, Stepped(s, th))
  {
    if th.pc.WalkTest? {
      TestPlace(s, th, th.pc.w, th.pc.curr);
    } else if th.pc.WalkCas? {
      CasPlace(s, th, th.pc.w, th.pc.curr, th.pc.v);
    } else {
      AdvancePlace(s, th);
    }
  }

  /** After its own step a thread still holds nodes of one generation. */
  lemma SelfPlace<T>(s: State<T>, t: nat)
    requires Shape(s) && t in s.threads
    ensures PlaceOk(s, Stepped(s, s.threads[t]))
  {
    var pc := s.threads[t].pc;
    if LoadsHead(pc) {
      SelfPlaceHead(s, t);
    } else if pc.WalkTest? || pc.WalkAdvance? || pc.WalkCas? || pc.WalkReload? {
      SelfPlaceWalk(s, s.threads[t]);
    } else {
      SelfPlaceLink(s, t);
    }
  }

  lemma LinkBatch<T>(s: State<T>, t: nat, n: nat, to: nat, val: T)
    requires Batch(s, t, [n], [val])
    ensures var s' := s.(mem := Write(s.mem, Link(n, to))); Batch(s', t, [n], [val]) && Linked(s'.mem, [n], to)
  {
    assert [n][0] == n;
  }

  ghost predicate OwnsNothing<T>(pc: PC<T>) {
    pc.Idle? || pc.Done? || pc.ClearLoad? || pc.ClearCas? || pc.WalkHead? || pc.WalkTest? || pc.WalkAdvance? ||
      pc.WalkCas? || pc.WalkReload?
  }

  lemma OwnsNothingStays<T>(m: Mem<T>, pc: PC<T>)
    requires OwnsNothing(pc)
    ensures OwnsNothing(Turn(m, pc).0)
  {
    match pc
    case WalkTest(w, curr) => match w { case LastW(_, _) => case _ => }
    case WalkCas(w, curr, v) => match w { case LastW(_, _) => case _ => }
    case _ =>
  }

  lemma PublishDone<T>(m: Mem<T>, pc: PC<T>)
    requires Counts(Turn(m, pc).1) && !OwnsNothing(pc)
    ensures Turn(m, pc).0.Done?
  {
  }

  lemma EndsOwning<T>(m: Mem<T>, pc: PC<T>)
    requires OwnsNothing(pc) || Counts(Turn(m, pc).1)
    ensures OwnsNothing(Turn(m, pc).0)
  {
    if OwnsNothing(pc) {
      OwnsNothingStays(m, pc);
    } else {
      PublishDone(m, pc);
    }
  }

  lemma NothingOwned<T>(s: State<T>, t: nat, th: Thread<T>)
    requires OwnsNothing(th.pc)
    ensures OwnOk(s, t, th)
  {
  }

  lemma StoreOwn<T>(s: State<T>, t: nat, th: Thread<T>)
    requires OwnOk(s, t, th) && (th.pc.HeadStore? || th.pc.InsertStore?)
    ensures OwnOk(s.(mem := Write(s.mem, Turn(s.mem, th.pc).1)), t, Stepped(s, th))
  {
    LinkBatch(s, t, th.pc.node, if th.pc.HeadStore? then th.pc.first else th.pc.succ, th.op.elem);
  }

  lemma LoadOwn<T>(s: State<T>, t: nat, th: Thread<T>)
    requires OwnOk(s, t, th) && !OwnsNothing(th.pc)
    requires Turn(s.mem, th.pc).1.Quiet? || Turn(s.mem, th.pc).1.Miss?
    ensures OwnOk(s, t, Stepped(s, th))
  {
  }

  /** ... and its private nodes, if it has not published them. */
  lemma SelfOwn<T>(s: State<T>, t: nat, th: Thread<T>)
    requires OwnOk(s, t, th)
    ensures OwnOk(s.(mem := Write(s.mem, Turn(s.mem, th.pc).1)), t, Stepped(s, th))
  {
    if OwnsNothing(th.pc) || Counts(Turn(s.mem, th.pc).1) {
      EndsOwning(s.mem, th.pc);
      NothingOwned(s.(mem := Write(s.mem, Turn(s.mem, th.pc).1)), t, Stepped(s, th));
    } else if th.pc.HeadStore? || th.pc.InsertStore? {
      StoreOwn(s, t, th);
    } else {
      LoadOwn(s, t, th);
      assert s.(mem := s.mem) == s;
    }
  }

  lemma OwnFrame<T>(s: State<T>, s': State<T>, t: nat, th: Thread<T>)
    requires OwnOk(s, t, th)
    requires s'.mem == s.mem
    requires s'.owner == s.owner
    requires th.pc.Done? || OwnsNothing(th.pc) || s'.home == s.home
    ensures OwnOk(s', t, th)
  {
  }

  lemma MoveSelf<T>(s: State<T>, t: nat)
    requires Shape(s) && Can(s, Move(t))
    ensures var s' := DoMove(s, t); OwnOk(s', t, s'.threads[t]) && PlaceOk(s', s'.threads[t])
  {
    var s' := DoMove(s, t);
    var th := s.threads[t];
    var e := Turn(s.mem, th.pc).1;
    TurnEffect(s, t);
    EffectGrows(s, t, th, e);
    SelfPlace(s, t);
    OthersPlace(s, s', Stepped(s, th));
    SelfOwn(s, t, th);
    if OwnsNothing(th.pc) {
      OwnsNothingStays(s.mem, th.pc);
    } else if Counts(e) {
      PublishDone(s.mem, th.pc);
    }
    OwnFrame(s.(mem := Write(s.mem, e)), s', t, Stepped(s, th));
  }

  lemma MoveOther<T>(s: State<T>, t: nat, u: nat)
    requires Shape(s) && Can(s, Move(t)) && u in s.threads && u != t
    ensures var s' := DoMove(s, t); OwnOk(s', u, s'.threads[u]) && PlaceOk(s', s'.threads[u])
  {
    var th := s.threads[t];
    var e := Turn(s.mem, th.pc).1;
    TurnEffect(s, t);
    EffectGrows(s, t, th, e);
    EffectKeeps(s, t, th, e, u);
    OthersPlace(s, DoMove(s, t), s.threads[u]);
    OthersOwn(s, DoMove(s, t), u, s.threads[u]);
  }

  lemma MoveShape<T>(s: State<T>, t: nat)
    requires Shape(s) && Can(s, Move(t))
    ensures Shape(DoMove(s, t))
  {
    var s' := DoMove(s, t);
    TurnEffect(s, t);
    EffectChains(s, t, s.threads[t], Turn(s.mem, s.threads[t].pc).1);
    forall u | u in s'.threads
      ensures OwnOk(s', u, s'.threads[u]) && PlaceOk(s', s'.threads[u])
    {
      if u == t {
        MoveSelf(s, t);
      } else {
        MoveOther(s, t, u);
      }
    }
  }

  // ---------- Calls and returns ----------

  lemma BuildAt<T>(m: Mem<T>, elems: seq<T>, end: nat, j: nat)
    requires j < |elems|
    ensures var m' := Build(m, elems, end); var n := m.brk + j;
            && Cell(m', n) == Ref(n + |elems|, elems[j])
            && Next(m', n) == (if j + 1 < |elems| then n + 1 else end)
            && n < m'.brk
  {
  }

  lemma BuildLinked<T>(m: Mem<T>, elems: seq<T>, end: nat)
    ensures Linked(Build(m, elems, end), Range(m.brk, |elems|), end)
  {
    var b: seq<nat> := Range(m.brk, |elems|);
    forall j {:trigger Next(Build(m, elems, end), b[j])} | 0 <= j < |b|
      ensures Next(Build(m, elems, end), b[j]) == if j + 1 < |b| then b[j + 1] else end
    {
      BuildAt(m, elems, end, j);
    }
  }

  lemma BuildBatch<T>(s: State<T>, s': State<T>, t: nat, elems: seq<T>, end: nat)
    requires elems != [] && s.mem.brk > TAIL
    requires forall n :: n in s.home ==> n < s.mem.brk
    requires s'.mem == Build(s.mem, elems, end) && s'.home == s.home
    requires forall a :: s.mem.brk <= a < s.mem.brk + |elems| ==> a in s'.owner && s'.owner[a] == t
    ensures Batch(s', t, Range(s.mem.brk, |elems|), elems)
  {
    var b: seq<nat> := Range(s.mem.brk, |elems|);
    forall j | 0 <= j < |b|
      ensures TAIL < b[j] < s'.mem.brk && b[j] !in s'.home && b[j] in s'.owner && s'.owner[b[j]] == t
      ensures Cell(s'.mem, b[j]).Ref? && Cell(s'.mem, b[j]).value == elems[j]
    {
      BuildAt(s.mem, elems, end, j);
    }
  }

  lemma CallFrame<T>(m: Mem<T>, op: Op<T>)
    requires m.brk > TAIL
    ensures m.brk <= CallMem(m, op).brk
    ensures forall n: nat :: n < m.brk ==>
            Next(CallMem(m, op), n) == Next(m, n) && Cell(CallMem(m, op), n) == Cell(m, n)
  {
  }

  lemma BuildOne<T>(s: State<T>, s': State<T>, t: nat, e: T)
    requires s.mem.brk > TAIL
    requires forall n :: n in s.home ==> n < s.mem.brk
    requires s'.mem == Build(s.mem, [e], NIL) && s'.home == s.home
    requires forall a :: s.mem.brk <= a < s.mem.brk + 2 ==> a in s'.owner && s'.owner[a] == t
    ensures Batch(s', t, [s.mem.brk], [e])
  {
    var b: seq<nat> := [s.mem.brk];
    BuildAt(s.mem, [e], NIL, 0);
    assert forall j :: 0 <= j < |b| ==> b[j] == s.mem.brk;
  }

  lemma Owned(owner: map<nat, nat>, got: seq<nat>, t: nat, from: nat, to: nat)
    requires from <= to && got == Range(from, to - from)
    ensures var owner' := owner + (map a | a in got :: t);
            forall a :: from <= a < to ==> a in owner' && owner'[a] == t
  {
  }

  lemma BeginOwner<T>(s: State<T>, t: nat, op: Op<T>)
    requires Can(s, Begin(t, op)) && s.mem.brk > TAIL
    ensures var s' := DoBegin(s, t, op);
            forall a :: s.mem.brk <= a < s'.mem.brk ==> a in s'.owner && s'.owner[a] == t
  {
    CallFrame(s.mem, op);
    var m := CallMem(s.mem, op);
    Owned(s.owner, Range(s.mem.brk, m.brk - s.mem.brk), t, s.mem.brk, m.brk);
  }

  lemma BeginAppend<T>(s: State<T>, t: nat, elems: seq<T>)
    requires Shape(s) && Can(s, Begin(t, Append(elems))) && elems != []
    ensures var s' := DoBegin(s, t, Append(elems)); OwnOk(s', t, s'.threads[t])
  {
    HomeNodes(s.mem, s.home, s.chains);
    BeginOwner(s, t, Append(elems));
    BuildBatch(s, DoBegin(s, t, Append(elems)), t, elems, TAIL);
    BuildLinked(s.mem, elems, TAIL);
  }

  lemma BeginInsert<T>(s: State<T>, t: nat, index: int, e: T)
    requires Shape(s) && Can(s, Begin(t, Insert(index, e))) && index >= 0
    ensures var s' := DoBegin(s, t, Insert(index, e)); OwnOk(s', t, s'.threads[t])
  {
    HomeNodes(s.mem, s.home, s.chains);
    BeginOwner(s, t, Insert(index, e));
    BuildOne(s, DoBegin(s, t, Insert(index, e)), t, e);
  }

  lemma BeginOwn<T>(s: State<T>, t: nat, op: Op<T>)
    requires Shape(s) && Can(s, Begin(t, op))
    ensures var s' := DoBegin(s, t, op); OwnOk(s', t, s'.threads[t])
  {
    if op.Append? && op.elems != [] {
      BeginAppend(s, t, op.elems);
    } else if op.Insert? && op.index >= 0 {
      BeginInsert(s, t, op.index, op.elem);
    }
  }

  lemma BeginKeeps<T>(s: State<T>, t: nat, op: Op<T>, u: nat)
    requires Can(s, Begin(t, op)) && s.mem.brk > TAIL
    requires forall a :: a in s.owner ==> a < s.mem.brk
    ensures var s' := DoBegin(s, t, op); Keeps(s.mem, s.home, s.owner, s'.mem, s'.home, s'.owner, u)
  {
    CallFrame(s.mem, op);
  }

  lemma BeginChains<T>(s: State<T>, t: nat, op: Op<T>)
    requires ChainsOk(s.mem, s.home, s.chains) && Can(s, Begin(t, op))
    ensures var s' := DoBegin(s, t, op); ChainsOk(s'.mem, s'.home, s'.chains)
  {
    CallFrame(s.mem, op);
    HomeNodes(s.mem, s.home, s.chains);
    FrameChains(s.mem, CallMem(s.mem, op), s.home, s.chains);
  }

  lemma BeginOther<T>(s: State<T>, t: nat, op: Op<T>, u: nat)
    requires Shape(s) && Can(s, Begin(t, op)) && u in s.threads && u != t
    ensures var s' := DoBegin(s, t, op); OwnOk(s', u, s'.threads[u]) && PlaceOk(s', s'.threads[u])
  {
    var s' := DoBegin(s, t, op);
    OthersPlace(s, s', s.threads[u]);
    BeginKeeps(s, t, op, u);
    OthersOwn(s, s', u, s.threads[u]);
  }

  lemma BeginPlace<T>(s: State<T>, op: Op<T>, th: Thread<T>)
    requires th.pc == CallPC(s.mem, op) && th.op == op
    requires th.made == 0
    ensures PlaceOk(s, th)
  {
  }

  lemma BeginShape<T>(s: State<T>, t: nat, op: Op<T>)
    requires Shape(s) && Can(s, Begin(t, op))
    ensures Shape(DoBegin(s, t, op))
  {
    var s' := DoBegin(s, t, op);
    BeginChains(s, t, op);
    CallFrame(s.mem, op);
    BeginOwn(s, t, op);
    var th := s'.threads[t];
    BeginPlace(s, op, th);
    OthersPlace(s, s', th);
    forall u | u in s'.threads
      ensures OwnOk(s', u, s'.threads[u]) && PlaceOk(s', s'.threads[u])
    {
      if u != t {
        BeginOther(s, t, op, u);
      }
    }
  }

  lemma DoShape<T>(s: State<T>, l: Label<T>)
    requires Shape(s) && Can(s, l)
    ensures Shape(Do(s, l))
  {
    match l
    case Begin(t, op) => BeginShape(s, t, op);
    case Move(t) => MoveShape(s, t);
    case Finish(t) =>
      var s' := DoFinish(s, t);
      forall u | u in s'.threads
        ensures OwnOk(s', u, s'.threads[u]) && PlaceOk(s', s'.threads[u])
      {
        OthersPlace(s, s', s.threads[u]);
        OthersOwn(s, s', u, s.threads[u]);
      }
  }

  lemma InitShape<T>(s: State<T>)
    requires Init(s)
    ensures Shape(s)
  {
  }

  /** The shape holds in every state of every run. */
  lemma {:induction false} RunShape<T>(run: seq<State<T>>, labels: seq<Label<T>>, i: nat)
    requires IsRun(run, labels) && i < |run|
    ensures Shape(run[i])
  {
    if i == 0 {
      InitShape(run[0]);
    } else {
      RunShape(run, labels, i - 1);
      assert Can(run[i - 1], labels[i - 1]);
      DoShape(run[i - 1], labels[i - 1]);
    }
  }
}
