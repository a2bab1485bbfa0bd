/**
 Read-only traversals (ToSlice, Size, and everything built on them) while other threads
 change the list.
 */
module LockFreeWalk {
  import opened Common
  import opened LockFreeMachine
  import opened LockFreeShape
  import opened LockFreeReach
  import opened LockFreePointers

  // ---------- The invariant of a traversal ----------

  /** a strictly before b in the chain c. */
  ghost predicate StrictlyBefore(c: seq<nat>, a: nat, b: nat) {
    Before(c, a, b) && a != b
  }

  ghost predicate InChainOrder(c: seq<nat>, ns: seq<nat>) {
    && (forall i :: 0 <= i < |ns| ==> ns[i] in c)
    && forall i, j :: 0 <= i < j < |ns| ==> StrictlyBefore(c, ns[i], ns[j])
  }

  /** The nodes of the reports, in report order. */
  function Nodes<T>(hits: seq<(nat, Ptr<T>)>): (ns: seq<nat>)
    ensures |ns| == |hits| && forall i :: 0 <= i < |hits| ==> ns[i] == hits[i].0
  {
    seq(|hits|, i requires 0 <= i < |hits| => hits[i].0)
  }

  /** What has been reported: values in step with (node, pointer) pairs, in chain order, and
      every passed node that is live now among them. */
  ghost predicate HitsOk<T>(m: Mem<T>, c: seq<nat>, acc: seq<T>, seen: seq<nat>, hits: seq<(nat, Ptr<T>)>) {
    && |acc| == |hits|
    && (forall i :: 0 <= i < |hits| ==> hits[i].0 in seen && hits[i].1.Ref? && acc[i] == hits[i].1.value)
    && InChainOrder(c, Nodes(hits))
    && (forall n :: n in seen && Cell(m, n).Ref? ==> n in Nodes(hits))
  }

  /** Every node of the snapshot still lies in c, and has been passed or lies ahead. */
  ghost predicate Ahead(c: seq<nat>, snap: seq<nat>, seen: seq<nat>, curr: nat) {
    forall n :: n in snap ==> n in c && (n in seen || (curr != TAIL && Before(c, curr, n)))
  }

  ghost predicate SliceOk<T>(s: State<T>, th: Thread<T>) {
    match th.pc
    case WalkHead(w) => w.SliceW? ==> w == SliceW([], [], [])
    case WalkTest(w, curr) =>
      w.SliceW? ==>
        var c := Chain(s, th.gen);
        && InChainOrder(c, w.seen)
        && (forall i :: 0 <= i < |w.seen| && curr != TAIL ==> StrictlyBefore(c, w.seen[i], curr))
        && Ahead(c, th.snap, w.seen, curr)
        && HitsOk(s.mem, c, w.acc, w.seen, w.hits)
    case WalkAdvance(w, curr) =>
      w.SliceW? ==>
        var c := Chain(s, th.gen);
        && InChainOrder(c, w.seen)
        && w.seen != [] && w.seen[|w.seen| - 1] == curr
        && Ahead(c, th.snap, w.seen, curr)
        && HitsOk(s.mem, c, w.acc, w.seen, w.hits)
    case _ => true
  }

  // ---------- Other threads' steps ----------

  lemma InOrderGrows(c: seq<nat>, c': seq<nat>, ns: seq<nat>)
    requires SameOrder(c, c') && InChainOrder(c, ns)
    ensures InChainOrder(c', ns)
  {
    forall i | 0 <= i < |ns|
      ensures ns[i] in c'
    {
      assert Before(c, ns[i], ns[i]);
    }
    forall i, j | 0 <= i < j < |ns|
      ensures StrictlyBefore(c', ns[i], ns[j])
    {
      assert StrictlyBefore(c, ns[i], ns[j]);
      assert Before(c, ns[i], ns[j]);
    }
  }

  lemma AheadGrows(c: seq<nat>, c': seq<nat>, snap: seq<nat>, seen: seq<nat>, curr: nat)
    requires SameOrder(c, c') && Ahead(c, snap, seen, curr)
    ensures Ahead(c', snap, seen, curr)
  {
    forall n | n in snap
      ensures n in c' && (n in seen || (curr != TAIL && Before(c', curr, n)))
    {
      assert Before(c, n, n);
      if n !in seen {
        assert Before(c, curr, n);
      }
    }
  }

  lemma HitsGrow<T>(m: Mem<T>, m': Mem<T>, c: seq<nat>, c': seq<nat>, acc: seq<T>, seen: seq<nat>,
                    hits: seq<(nat, Ptr<T>)>)
    requires SameOrder(c, c') && HitsOk(m, c, acc, seen, hits)
    requires forall n :: n in seen && Cell(m, n).Nil? ==> Cell(m', n).Nil?
    ensures HitsOk(m', c', acc, seen, hits)
  {
    InOrderGrows(c, c', Nodes(hits));
  }

  /** Interference: chains keep their order and deleted nodes stay deleted. */
  lemma SliceStable<T>(s: State<T>, s': State<T>, th: Thread<T>)
    requires ChainsOk(s.mem, s.home, s.chains) && Ordered(s, s') && PlaceOk(s, th) && SliceOk(s, th)
    requires forall n: nat :: n < s.mem.brk && Cell(s.mem, n).Nil? ==> Cell(s'.mem, n).Nil?
    ensures SliceOk(s', th)
  {
    if (th.pc.WalkTest? || th.pc.WalkAdvance?) && th.pc.w.SliceW? && th.gen < |s.chains| {
      var c, c', w := s.chains[th.gen], s'.chains[th.gen], th.pc.w;
      assert ChainOk(s.mem, s.home, th.gen, c);
      InOrderGrows(c, c', w.seen);
      AheadGrows(c, c', th.snap, w.seen, th.pc.curr);
      HitsGrow(s.mem, s'.mem, c, c', w.acc, w.seen, w.hits);
      if th.pc.WalkTest? && th.pc.curr != TAIL {
        forall i | 0 <= i < |w.seen|
          ensures StrictlyBefore(c', w.seen[i], th.pc.curr)
        {
          assert StrictlyBefore(c, w.seen[i], th.pc.curr);
          assert Before(c, w.seen[i], th.pc.curr);
        }
      }
    }
  }

  // ---------- The traversal's own steps ----------

  lemma SliceStart<T>(s: State<T>, th: Thread<T>)
    requires ChainsOk(s.mem, s.home, s.chains) && th.pc.WalkHead? && th.pc.w == SliceW([], [], [])
    ensures SliceOk(s, Stepped(s, th))
  {
    var g := |s.chains| - 1;
    var c := s.chains[g];
    assert ChainOk(s.mem, s.home, g, c);
    var first := Next(s.mem, HEAD);
    forall n | n in c
      ensures first != TAIL && Before(c, first, n)
    {
    }
    assert Nodes<T>([]) == [];
  }

  lemma HitsVisit<T>(m: Mem<T>, c: seq<nat>, acc: seq<T>, seen: seq<nat>, hits: seq<(nat, Ptr<T>)>, curr: nat)
    requires HitsOk(m, c, acc, seen, hits) && curr in c
    requires forall i :: 0 <= i < |seen| ==> StrictlyBefore(c, seen[i], curr)
    ensures Cell(m, curr).Nil? ==> HitsOk(m, c, acc, seen + [curr], hits)
    ensures Cell(m, curr).Ref? ==>
            HitsOk(m, c, acc + [Cell(m, curr).value], seen + [curr], hits + [(curr, Cell(m, curr))])
  {
    var hits' := hits + [(curr, Cell(m, curr))];
    assert Nodes(hits') == Nodes(hits) + [curr];
    forall i | 0 <= i < |hits|
      ensures StrictlyBefore(c, Nodes(hits)[i], curr)
    {
      assert hits[i].0 in seen;
    }
  }

  lemma SliceVisit<T>(s: State<T>, th: Thread<T>)
    requires ChainsOk(s.mem, s.home, s.chains) && PlaceOk(s, th) && SliceOk(s, th)
    requires th.pc.WalkTest? && th.pc.w.SliceW? && th.pc.curr != TAIL
    ensures SliceOk(s, Stepped(s, th))
  {
    var c, w, curr := s.chains[th.gen], th.pc.w, th.pc.curr;
    assert ChainOk(s.mem, s.home, th.gen, c);
    HitsVisit(s.mem, c, w.acc, w.seen, w.hits, curr);
  }

  lemma SeenAdvance(c: seq<nat>, i: nat, seen: seq<nat>)
    requires NoDup(c) && i < |c| && InChainOrder(c, seen)
    requires seen != [] && seen[|seen| - 1] == c[i]
    ensures i + 1 < |c| ==> forall j :: 0 <= j < |seen| ==> StrictlyBefore(c, seen[j], c[i + 1])
  {
    if i + 1 < |c| {
      IndexUnique(c, i);
      IndexUnique(c, i + 1);
      forall j | 0 <= j < |seen|
        ensures StrictlyBefore(c, seen[j], c[i + 1])
      {
        assert j < |seen| - 1 ==> StrictlyBefore(c, seen[j], c[i]);
      }
    }
  }

  lemma NextInOrder(c: seq<nat>, i: nat, n: nat)
    requires NoDup(c) && i < |c| && Before(c, c[i], n) && n != c[i]
    ensures i + 1 < |c| && Before(c, c[i + 1], n)
  {
    IndexUnique(c, i);
    if i + 1 < |c| {
      IndexUnique(c, i + 1);
    }
  }

  lemma AheadAdvance(c: seq<nat>, i: nat, snap: seq<nat>, seen: seq<nat>)
    requires NoDup(c) && i < |c| && Ahead(c, snap, seen, c[i]) && c[i] in seen
    requires forall n :: n in c ==> n > TAIL
    ensures Ahead(c, snap, seen, At(c, i + 1))
  {
    forall n | n in snap && n !in seen
      ensures i + 1 < |c| && Before(c, c[i + 1], n)
    {
      NextInOrder(c, i, n);
    }
  }

  lemma NextIs<T>(m: Mem<T>, home: map<nat, nat>, g: nat, c: seq<nat>, i: nat)
    requires ChainOk(m, home, g, c) && i < |c|
    ensures Next(m, c[i]) == At(c, i + 1)
    ensures NoDup(c) && forall n :: n in c ==> n > TAIL
  {
  }

  lemma SliceAdvance<T>(s: State<T>, th: Thread<T>)
    requires ChainsOk(s.mem, s.home, s.chains) && PlaceOk(s, th) && SliceOk(s, th)
    requires th.pc.WalkAdvance? && th.pc.w.SliceW?
    ensures SliceOk(s, Stepped(s, th))
  {
    var c, w, curr := s.chains[th.gen], th.pc.w, th.pc.curr;
    var i := IndexOf(c, curr);
    NextIs(s.mem, s.home, th.gen, c, i);
    SeenAdvance(c, i, w.seen);
    AheadAdvance(c, i, th.snap, w.seen);
  }

  predicate Slicing<T>(pc: PC<T>) { Walking(pc) && pc.w.SliceW? }

  /** Only a call starts a traversal, and only the tail sentinel ends it. */
  lemma SlicingStays<T>(m: Mem<T>, pc: PC<T>)
    requires pc.WalkTest? ==> pc.curr != NIL
    ensures !Slicing(pc) || (pc.WalkTest? && pc.curr == TAIL) ==> !Slicing(Turn(m, pc).0)
  {
    if Walking(pc) {
      match pc.w
      case LastW(_, _) =>
      case FuncW(_, _) =>
      case _ =>
    }
  }

  lemma NotSlicing<T>(s: State<T>, th: Thread<T>)
    requires !Slicing(th.pc)
    ensures SliceOk(s, th)
  {
  }

  lemma SelfSlice<T>(s: State<T>, th: Thread<T>)
    requires ChainsOk(s.mem, s.home, s.chains) && PlaceOk(s, th) && SliceOk(s, th)
    ensures SliceOk(s, Stepped(s, th))
  {
    if !Slicing(th.pc) || (th.pc.WalkTest? && th.pc.curr == TAIL) {
      if th.pc.WalkTest? {
        WalkNotNil(s, th);
      }
      SlicingStays(s.mem, th.pc);
      NotSlicing(s, Stepped(s, th));
    } else if th.pc.WalkHead? {
      SliceStart(s, th);
    } else if th.pc.WalkTest? {
      SliceVisit(s, th);
    } else if th.pc.WalkAdvance? {
      SliceAdvance(s, th);
    }
  }

  lemma WalkNotNil<T>(s: State<T>, th: Thread<T>)
    requires ChainsOk(s.mem, s.home, s.chains) && PlaceOk(s, th) && th.pc.WalkTest?
    ensures th.pc.curr != NIL
  {
    if th.pc.curr != TAIL {
      AtNodeHome(s, th, th.pc.curr);
    }
  }

  ghost predicate AllSlices<T>(s: State<T>) {
    forall t :: t in s.threads ==> SliceOk(s, s.threads[t])
  }

  lemma DeadStay<T>(s: State<T>, l: Label<T>)
    requires Shape(s) && Can(s, l)
    ensures forall n: nat :: n < s.mem.brk && Cell(s.mem, n).Nil? ==> Cell(Do(s, l).mem, n).Nil?
  {
    forall n: nat | n < s.mem.brk && Cell(s.mem, n).Nil?
      ensures Cell(Do(s, l).mem, n).Nil?
    {
      DoStaysDeleted(s, l, n);
    }
  }

  /** The chains keep their order, and deleted nodes stay deleted. */
  ghost predicate Settles<T>(s: State<T>, s': State<T>) {
    && ChainsOk(s.mem, s.home, s.chains) && Ordered(s, s')
    && forall n: nat :: n < s.mem.brk && Cell(s.mem, n).Nil? ==> Cell(s'.mem, n).Nil?
  }

  lemma DoSettles<T>(s: State<T>, l: Label<T>)
    requires Shape(s) && Can(s, l)
    ensures Settles(s, Do(s, l))
  {
    DoOrdered(s, l);
    DeadStay(s, l);
  }

  lemma OwnSlice<T>(s: State<T>, s': State<T>, t: nat)
    requires Shape(s) && Settles(s, s') && t in s.threads && SliceOk(s, s.threads[t])
    ensures SliceOk(s', Stepped(s, s.threads[t]))
  {
    SelfPlace(s, t);
    SelfSlice(s, s.threads[t]);
    SliceStable(s, s', Stepped(s, s.threads[t]));
  }

  lemma CallSlice<T>(m: Mem<T>, s: State<T>, th: Thread<T>)
    requires th.pc == CallPC(m, th.op)
    ensures SliceOk(s, th)
  {
  }

  lemma DoSlice<T>(s: State<T>, l: Label<T>, t: nat)
    requires Shape(s) && Can(s, l) && t in Do(s, l).threads && t in s.threads && SliceOk(s, s.threads[t])
    ensures SliceOk(Do(s, l), Do(s, l).threads[t])
  {
    DoSettles(s, l);
    if t != l.tid {
      SliceStable(s, Do(s, l), s.threads[t]);
    } else if l.Move? {
      OwnSlice(s, Do(s, l), t);
    } else if l.Begin? {
      CallSlice(s.mem, Do(s, l), Do(s, l).threads[t]);
    }
  }

  lemma DoSlices<T>(s: State<T>, l: Label<T>)
    requires Shape(s) && AllSlices(s) && Can(s, l)
    ensures AllSlices(Do(s, l))
  {
    forall t | t in Do(s, l).threads
      ensures SliceOk(Do(s, l), Do(s, l).threads[t])
    {
      DoThread(s, l, t);
      DoSlice(s, l, t);
    }
  }

  lemma {:induction false} RunSlices<T>(run: seq<State<T>>, labels: seq<Label<T>>, i: nat)
    requires IsRun(run, labels) && i < |run|
    ensures AllSlices(run[i])
  {
    if i > 0 {
      RunSlices(run, labels, i - 1);
      RunShape(run, labels, i - 1);
      assert Can(run[i - 1], labels[i - 1]);
      DoSlices(run[i - 1], labels[i - 1]);
    }
  }

  // ---------- The snapshot is the chain of an earlier state ----------

  /** th last loaded head.next in the state run[since]. */
  ghost predicate SnapOk<T>(run: seq<State<T>>, th: Thread<T>) {
    UsesGen(th.pc) ==>
      && th.since < |run| && 0 <= Last(run[th.since]) == th.gen
      && th.snap == run[th.since].chains[th.gen]
  }

  lemma StepSnap<T>(run: seq<State<T>>, i: nat, th: Thread<T>)
    requires i < |run| && SnapOk(run, th) && run[i].clock == i && |run[i].chains| > 0
    requires UsesGen(th.pc) ==> th.since < i
    ensures SnapOk(run, Stepped(run[i], th))
    ensures var th' := Stepped(run[i], th); UsesGen(th'.pc) ==> th'.since <= i
  {
  }

  lemma DoThread<T>(s: State<T>, l: Label<T>, t: nat)
    requires Can(s, l) && t in Do(s, l).threads
    ensures t in s.threads && Do(s, l).clock == s.clock + 1
    ensures var th, th' := s.threads[t], Do(s, l).threads[t];
            if t != l.tid then th' == th
            else if l.Move? then th' == Stepped(s, th)
            else th'.pc.Idle? || th'.pc == CallPC(s.mem, th'.op)
  {
  }

  /** The bookkeeping of a walk is about an earlier step of the run. */
  ghost predicate Snapped<T>(run: seq<State<T>>, i: nat, th: Thread<T>) {
    SnapOk(run, th) && (UsesGen(th.pc) ==> th.since < i)
  }

  lemma NextSnap<T>(run: seq<State<T>>, i: nat, th: Thread<T>, th': Thread<T>)
    requires i < |run| && Snapped(run, i, th) && run[i].clock == i && |run[i].chains| > 0
    requires th' == th || th' == Stepped(run[i], th) || th'.pc.Idle? || th'.pc == CallPC(run[i].mem, th'.op)
    ensures Snapped(run, i + 1, th')
  {
    StepSnap(run, i, th);
  }

  lemma {:induction false} RunSnaps<T>(run: seq<State<T>>, labels: seq<Label<T>>, i: nat, t: nat)
    requires IsRun(run, labels) && i < |run| && t in run[i].threads
    ensures Snapped(run, i, run[i].threads[t]) && run[i].clock == i
  {
    if i > 0 {
      var s, l := run[i - 1], labels[i - 1];
      assert Can(s, l) && run[i] == Do(s, l);
      DoThread(s, l, t);
      RunSnaps(run, labels, i - 1, t);
      RunShape(run, labels, i - 1);
      NextSnap(run, i - 1, s.threads[t], run[i].threads[t]);
    }
  }

  // ---------- Theorems ----------

  /** Thread t is about to return the slice acc, having walked to the tail sentinel. */
  ghost predicate Returning<T>(s: State<T>, t: nat, acc: seq<T>, hits: seq<(nat, Ptr<T>)>) {
    && t in s.threads && s.threads[t].pc.WalkTest? && s.threads[t].pc.curr == TAIL
    && s.threads[t].pc.w.SliceW? && s.threads[t].pc.w.acc == acc && s.threads[t].pc.w.hits == hits
  }

  /** A traversal, whatever the other threads do meanwhile: the reports are of distinct nodes
      in chain order, and include, once, every node that was attached when the traversal
      loaded head.next and is live when it ends. */
  lemma TraversalComplete<T>(run: seq<State<T>>, labels: seq<Label<T>>, i: nat, t: nat, acc: seq<T>,
                             hits: seq<(nat, Ptr<T>)>)
    requires IsRun(run, labels) && i < |run|
    requires Returning(run[i], t, acc, hits)
    ensures var th := run[i].threads[t];
            && th.since < i && 0 <= Last(run[th.since]) && th.gen < |run[i].chains|
            && Turn(run[i].mem, th.pc).0 == Done(Slice(acc))
            && |acc| == |hits| && (forall k :: 0 <= k < |acc| ==> hits[k].1.Ref? && acc[k] == hits[k].1.value)
            && InChainOrder(run[i].chains[th.gen], Nodes(hits))
            && forall n :: n in run[th.since].chains[Last(run[th.since])] && Cell(run[i].mem, n).Ref? ==>
               n in Nodes(hits)
  {
    RunSlices(run, labels, i);
    RunSnaps(run, labels, i, t);
    RunShape(run, labels, i);
    assert SliceOk(run[i], run[i].threads[t]) && PlaceOk(run[i], run[i].threads[t]);
    RunShape(run, labels, run[i].threads[t].since);
    RunGens(run, labels, run[i].threads[t].since, i);
  }

  lemma {:induction false} RunGens<T>(run: seq<State<T>>, labels: seq<Label<T>>, i: nat, j: nat)
    requires IsRun(run, labels) && i <= j < |run|
    ensures |run[i].chains| <= |run[j].chains|
  {
    RunOrdered(run, labels, i, j);
  }

  /** Each report is of a pointer that was in its node at some step of the traversal. */
  ghost predicate SeenAt<T>(run: seq<State<T>>, since: nat, i: nat, hit: (nat, Ptr<T>)) {
    exists k :: since < k < i && k < |run| && Cell(run[k].mem, hit.0) == hit.1
  }

  ghost predicate HitsSeen<T>(run: seq<State<T>>, i: nat, th: Thread<T>) {
    match th.pc
    case WalkTest(w, _) => w.SliceW? ==> forall k :: 0 <= k < |w.hits| ==> SeenAt(run, th.since, i, w.hits[k])
    case WalkAdvance(w, _) => w.SliceW? ==> forall k :: 0 <= k < |w.hits| ==> SeenAt(run, th.since, i, w.hits[k])
    case _ => true
  }

  lemma LaterSeen<T>(run: seq<State<T>>, since: nat, i: nat, hit: (nat, Ptr<T>))
    requires SeenAt(run, since, i, hit)
    ensures SeenAt(run, since, i + 1, hit)
  {
  }

  /** A thread beyond the head of a walk did not just begin. */
  lemma WalkGoesOn<T>(s: State<T>, l: Label<T>, t: nat)
    requires Can(s, l) && t in s.threads
    requires var pc := Do(s, l).threads[t].pc; pc.WalkTest? || pc.WalkAdvance?
    ensures var th, th' := s.threads[t], Do(s, l).threads[t];
            if l.Move? && l.tid == t then th' == Stepped(s, th) && !th.pc.Idle? && !th.pc.Done? else th' == th
  {
    if l.Begin? && l.tid == t {
      CallStarts(s.mem, l.op);
    }
  }

  lemma CallStarts<T>(m: Mem<T>, op: Op<T>)
    ensures !CallPC(m, op).WalkTest? && !CallPC(m, op).WalkAdvance?
  {
  }

  lemma NextSeen<T>(run: seq<State<T>>, l: Label<T>, i: nat, t: nat, th': Thread<T>)
    requires i < |run| && t in run[i].threads && Can(run[i], l) && Shape(run[i]) && AllSlices(run[i])
    requires t in Do(run[i], l).threads && th' == Do(run[i], l).threads[t]
    requires HitsSeen(run, i, run[i].threads[t]) && Snapped(run, i, run[i].threads[t])
    ensures HitsSeen(run, i + 1, th')
  {
    var s, th := run[i], run[i].threads[t];
    assert SliceOk(s, th) && PlaceOk(s, th);
    if (th'.pc.WalkTest? || th'.pc.WalkAdvance?) && th'.pc.w.SliceW? {
      WalkGoesOn(s, l, t);
      StepSeen(run, i, th, th', l.Move? && l.tid == t);
    }
  }

  lemma {:induction false} ReportsCurrent<T>(run: seq<State<T>>, labels: seq<Label<T>>, i: nat, t: nat)
    requires IsRun(run, labels) && i < |run| && t in run[i].threads
    ensures HitsSeen(run, i, run[i].threads[t])
  {
    if i > 0 {
      var s, l := run[i - 1], labels[i - 1];
      assert Can(s, l) && run[i] == Do(s, l);
      DoThread(s, l, t);
      ReportsCurrent(run, labels, i - 1, t);
      RunSnaps(run, labels, i - 1, t);
      RunSlices(run, labels, i - 1);
      RunShape(run, labels, i - 1);
      NextSeen(run, l, i - 1, t, run[i].threads[t]);
    }
  }

  lemma StepSeen<T>(run: seq<State<T>>, i: nat, th: Thread<T>, th': Thread<T>, moved: bool)
    requires i < |run| && HitsSeen(run, i, th) && SliceOk(run[i], th) && PlaceOk(run[i], th)
    requires th.pc.WalkTest? ==> th.since < i
    requires if moved then th' == Stepped(run[i], th) && !th.pc.Idle? && !th.pc.Done? else th' == th
    requires (th'.pc.WalkTest? || th'.pc.WalkAdvance?) && th'.pc.w.SliceW?
    ensures HitsSeen(run, i + 1, th')
  {
    if !th.pc.WalkHead? {
      assert (th.pc.WalkTest? || th.pc.WalkAdvance?) && th.pc.w.SliceW? && th'.since == th.since;
      forall k | 0 <= k < |th'.pc.w.hits|
        ensures SeenAt(run, th'.since, i + 1, th'.pc.w.hits[k])
      {
        if k < |th.pc.w.hits| {
          assert th'.pc.w.hits[k] == th.pc.w.hits[k];
          LaterSeen(run, th.since, i, th.pc.w.hits[k]);
        } else {
          assert Cell(run[i].mem, th'.pc.w.hits[k].0) == th'.pc.w.hits[k].1;
        }
      }
    }
  }
}
