/**
 What the removing operations missed. When RemoveFirst, RemoveLast or Remove finds nothing, or
 RemoveFunc is through, every node that was attached when the walk began has been accounted
 for, whatever the other threads did meanwhile.
 */
module LockFreeMisses {
  import opened Common
  import opened LockFreeMachine
  import opened LockFreeShape
  import opened LockFreeReach
  import opened LockFreePointers
  import opened LockFreeWalk

  // ---------- Reasons to pass a node ----------

  /** The element is one the operation would remove. */
  predicate Wanted<T>(op: Op<T>, x: T) {
    match op
    case Remove(matches) => matches(x)
    case RemoveFunc(pred) => pred(x)
    case _ => true
  }

  /** The node is dead, or holds an element that is not wanted. */
  predicate Spared<T>(op: Op<T>, p: Ptr<T>) {
    p.Nil? || !Wanted(op, p.value)
  }

  /** k is a state of the walk that loaded head.next in state since. */
  predicate During(since: nat, k: nat, i: nat) { since < k <= i }

  /** The node was spared in some state of the walk. */
  ghost predicate SparedOnce<T>(run: seq<State<T>>, since: nat, i: nat, op: Op<T>, n: nat) {
    i < |run| && exists k: nat :: During(since, k, i) && Spared(op, Cell(run[k].mem, n))
  }

  /** The node was written, by whomever, during the walk. */
  ghost predicate Rewritten<T>(run: seq<State<T>>, since: nat, i: nat, n: nat) {
    i < |run| && exists j: nat, k: nat ::
      During(since, j, i) && During(since, k, i) && Cell(run[j].mem, n) != Cell(run[k].mem, n)
  }

  ghost predicate Accounted<T>(run: seq<State<T>>, since: nat, i: nat, op: Op<T>, n: nat) {
    SparedOnce(run, since, i, op, n) || (op.RemoveFunc? && Rewritten(run, since, i, n))
  }

  // ---------- The invariant of a search ----------

  /** A walk that so far has found nothing to return. */
  predicate Search<T>(w: Walk<T>) {
    w.FirstW? || w.MatchW? || w.FuncW? || (w.LastW? && w.last == NIL)
  }

  predicate Searching<T>(pc: PC<T>) {
    (pc.WalkTest? || pc.WalkAdvance? || pc.WalkCas?) && Search(pc.w)
  }

  /** Every node of the snapshot has been accounted for, or lies ahead. */
  ghost predicate Covered(c: seq<nat>, snap: seq<nat>, over: set<nat>, curr: nat) {
    forall n :: n in snap ==> n in c && (n in over || (curr != TAIL && Before(c, curr, n)))
  }

  ghost predicate SearchOk<T>(s: State<T>, th: Thread<T>, over: set<nat>) {
    Searching(th.pc) ==>
      && Covered(Chain(s, th.gen), th.snap, over, th.pc.curr)
      && (th.pc.WalkAdvance? && th.pc.curr in th.snap ==> th.pc.curr in over)
  }

  lemma CoveredGrows(c: seq<nat>, c': seq<nat>, snap: seq<nat>, over: set<nat>, over': set<nat>, curr: nat)
    requires SameOrder(c, c') && over <= over' && Covered(c, snap, over, curr)
    ensures Covered(c', snap, over', curr)
  {
    forall n | n in snap
      ensures n in c' && (n in over' || (curr != TAIL && Before(c', curr, n)))
    {
      assert Before(c, n, n);
      if n !in over {
        assert Before(c, curr, n);
      }
    }
  }

  /** Chains and accounts only grow. */
  lemma SearchStable<T>(s: State<T>, s': State<T>, th: Thread<T>, over: set<nat>, over': set<nat>)
    requires Ordered(s, s') && over <= over' && PlaceOk(s, th) && SearchOk(s, th, over)
    ensures SearchOk(s', th, over')
  {
    if Searching(th.pc) && th.gen < |s.chains| {
      CoveredGrows(s.chains[th.gen], s'.chains[th.gen], th.snap, over, over', th.pc.curr);
    }
  }

  // ---------- The search's own steps ----------

  lemma SearchStart<T>(s: State<T>, th: Thread<T>, over: set<nat>)
    requires ChainsOk(s.mem, s.home, s.chains) && th.pc.WalkHead?
    ensures SearchOk(s, Stepped(s, th), over)
  {
    var g := |s.chains| - 1;
    assert ChainOk(s.mem, s.home, g, s.chains[g]);
  }

  lemma CoveredNext(c: seq<nat>, i: nat, snap: seq<nat>, over: set<nat>)
    requires NoDup(c) && i < |c| && Covered(c, snap, over, c[i]) && (c[i] in snap ==> c[i] in over)
    requires forall n :: n in c ==> n > TAIL
    ensures Covered(c, snap, over, At(c, i + 1))
  {
    forall n | n in snap && n !in over
      ensures i + 1 < |c| && Before(c, c[i + 1], n)
    {
      NextInOrder(c, i, n);
    }
  }

  lemma SearchAdvance<T>(s: State<T>, th: Thread<T>, over: set<nat>)
    requires ChainsOk(s.mem, s.home, s.chains) && PlaceOk(s, th) && SearchOk(s, th, over)
    requires th.pc.WalkAdvance? && Search(th.pc.w)
    ensures SearchOk(s, Stepped(s, th), over)
  {
    var c, curr := s.chains[th.gen], th.pc.curr;
    var i := IndexOf(c, curr);
    NextIs(s.mem, s.home, th.gen, c, i);
    CoveredNext(c, i, th.snap, over);
  }

  /** A search goes on from where it is, or ends. */
  lemma SearchStays<T>(m: Mem<T>, pc: PC<T>)
    requires !pc.WalkHead? && !pc.WalkAdvance? && (pc.WalkTest? ==> pc.curr != NIL)
    requires pc.WalkReload? ==> pc.w.SetW?
    requires Searching(Turn(m, pc).0)
    ensures Searching(pc) && (pc.WalkTest? ==> pc.curr != TAIL) && Turn(m, pc).0.curr == pc.curr
    ensures pc.WalkTest? || pc.WalkCas?
  {
    if Walking(pc) {
      match pc.w
      case LastW(_, _) =>
      case FuncW(_, _) =>
      case _ =>
    }
  }

  lemma SelfSearch<T>(s: State<T>, th: Thread<T>, over: set<nat>)
    requires ChainsOk(s.mem, s.home, s.chains) && PlaceOk(s, th) && SearchOk(s, th, over)
    requires var pc := Turn(s.mem, th.pc).0;
             pc.WalkAdvance? && Searching(pc) && pc.curr in th.snap ==> pc.curr in over
    ensures SearchOk(s, Stepped(s, th), over)
  {
    if th.pc.WalkHead? {
      SearchStart(s, th, over);
    } else if th.pc.WalkAdvance? {
      if Search(th.pc.w) {
        SearchAdvance(s, th, over);
      }
    } else if Searching(Turn(s.mem, th.pc).0) {
      if th.pc.WalkTest? {
        WalkNotNil(s, th);
      }
      SearchStays(s.mem, th.pc);
    }
  }

  // ---------- Accounts in a run ----------

  lemma LaterAccounted<T>(run: seq<State<T>>, since: nat, i: nat, op: Op<T>, n: nat)
    requires Accounted(run, since, i, op, n) && i + 1 < |run|
    ensures Accounted(run, since, i + 1, op, n)
  {
    if SparedOnce(run, since, i, op, n) {
      var k: nat :| During(since, k, i) && Spared(op, Cell(run[k].mem, n));
      assert During(since, k, i + 1);
    } else {
      var j: nat, k: nat :| During(since, j, i) && During(since, k, i) && Cell(run[j].mem, n) != Cell(run[k].mem, n);
      assert During(since, j, i + 1) && During(since, k, i + 1);
    }
  }

  /** The nodes of the snapshot that have been accounted for. */
  ghost function Over<T>(run: seq<State<T>>, i: nat, th: Thread<T>): set<nat> {
    set n | n in th.snap && Accounted(run, th.since, i, th.op, n)
  }

  lemma OverGrows<T>(run: seq<State<T>>, i: nat, th: Thread<T>, th': Thread<T>)
    requires i + 1 < |run| && th'.since == th.since && th'.snap == th.snap && th'.op == th.op
    ensures Over(run, i, th) <= Over(run, i + 1, th')
  {
    forall n | n in Over(run, i, th)
      ensures n in Over(run, i + 1, th')
    {
      LaterAccounted(run, th.since, i, th.op, n);
    }
  }

  /** RemoveFunc attempts its CAS with what it has seen in the node during this walk. */
  ghost predicate LoadedAt<T>(run: seq<State<T>>, since: nat, i: nat, n: nat, p: Ptr<T>) {
    i < |run| && exists k: nat :: During(since, k, i) && Cell(run[k].mem, n) == p
  }

  ghost predicate Loaded<T>(run: seq<State<T>>, i: nat, th: Thread<T>) {
    th.pc.WalkCas? && th.pc.w.FuncW? ==> LoadedAt(run, th.since, i, th.pc.curr, th.pc.v)
  }

  lemma LaterLoaded<T>(run: seq<State<T>>, since: nat, i: nat, n: nat, p: Ptr<T>)
    requires LoadedAt(run, since, i, n, p) && i + 1 < |run|
    ensures LoadedAt(run, since, i + 1, n, p)
  {
    var k: nat :| During(since, k, i) && Cell(run[k].mem, n) == p;
    assert During(since, k, i + 1);
  }

  /** The search passes a node it has just looked at. */
  lemma TestAccounted<T>(run: seq<State<T>>, i: nat, th: Thread<T>)
    requires i + 1 < |run| && th.since < i && PlaceOk(run[i], th)
    requires th.pc.WalkTest? && th.pc.curr != NIL && th.pc.curr != TAIL
    requires var pc := Turn(run[i].mem, th.pc).0; pc.WalkAdvance? && Search(pc.w)
    ensures Accounted(run, th.since, i + 1, th.op, th.pc.curr)
  {
    assert Spared(th.op, Cell(run[i].mem, th.pc.curr));
    assert During(th.since, i, i + 1);
  }

  /** RemoveFunc passes a node after its CAS: it has removed the element, or another operation
      has written the node since it looked. */
  lemma CasAccounted<T>(run: seq<State<T>>, i: nat, th: Thread<T>)
    requires i + 1 < |run| && th.since < i && PlaceOk(run[i], th) && Loaded(run, i, th)
    requires run[i + 1].mem == Write(run[i].mem, Turn(run[i].mem, th.pc).1)
    requires th.pc.WalkCas? && Turn(run[i].mem, th.pc).0.WalkAdvance?
    ensures Accounted(run, th.since, i + 1, th.op, th.pc.curr)
  {
    var n := th.pc.curr;
    assert th.pc.w.FuncW?;
    if SamePtr(Cell(run[i].mem, n), th.pc.v) {
      assert Cell(run[i + 1].mem, n).Nil?;
      assert During(th.since, i + 1, i + 1);
    } else {
      var k: nat :| During(th.since, k, i) && Cell(run[k].mem, n) == th.pc.v;
      assert During(th.since, k, i + 1) && During(th.since, i, i + 1);
    }
  }

  lemma StepLoaded<T>(run: seq<State<T>>, i: nat, th: Thread<T>)
    requires i + 1 < |run| && (UsesGen(th.pc) ==> th.since < i) && PlaceOk(run[i], th)
    ensures Loaded(run, i + 1, Stepped(run[i], th))
  {
    var th' := Stepped(run[i], th);
    if th'.pc.WalkCas? && th'.pc.w.FuncW? {
      assert th.pc.WalkTest? && th'.pc.v == Cell(run[i].mem, th'.pc.curr);
      assert During(th.since, i, i + 1);
    }
  }

  ghost predicate Searched<T>(run: seq<State<T>>, i: nat, th: Thread<T>) {
    i < |run| && SearchOk(run[i], th, Over(run, i, th)) && Loaded(run, i, th)
  }

  lemma OtherSearched<T>(run: seq<State<T>>, i: nat, th: Thread<T>)
    requires i + 1 < |run| && Searched(run, i, th) && PlaceOk(run[i], th)
    requires Ordered(run[i], run[i + 1])
    ensures Searched(run, i + 1, th)
  {
    OverGrows(run, i, th, th);
    SearchStable(run[i], run[i + 1], th, Over(run, i, th), Over(run, i + 1, th));
    if th.pc.WalkCas? && th.pc.w.FuncW? {
      LaterLoaded(run, th.since, i, th.pc.curr, th.pc.v);
    }
  }

  lemma SearchMore<T>(s: State<T>, th: Thread<T>, over: set<nat>, over': set<nat>)
    requires SearchOk(s, th, over) && over <= over'
    ensures SearchOk(s, th, over')
  {
  }

  /** The node the search has just passed is accounted for. */
  lemma PassAccounted<T>(run: seq<State<T>>, i: nat, th: Thread<T>)
    requires i + 1 < |run| && PlaceOk(run[i], th) && Loaded(run, i, th) &&
             ChainsOk(run[i].mem, run[i].home, run[i].chains)
    requires Walking(th.pc) && !th.pc.WalkHead? && !th.pc.WalkAdvance? && th.since < i
    requires run[i + 1].mem == Write(run[i].mem, Turn(run[i].mem, th.pc).1)
    requires var pc := Turn(run[i].mem, th.pc).0; pc.WalkAdvance? && Searching(pc)
    ensures Accounted(run, th.since, i + 1, th.op, Turn(run[i].mem, th.pc).0.curr)
  {
    if th.pc.WalkTest? {
      WalkNotNil(run[i], th);
    }
    SearchStays(run[i].mem, th.pc);
    if th.pc.WalkTest? {
      TestAccounted(run, i, th);
    } else {
      CasAccounted(run, i, th);
    }
  }

  lemma GoesOnSearching<T>(s: State<T>, th: Thread<T>)
    requires !th.pc.WalkHead? && Searching(Turn(s.mem, th.pc).0)
    ensures Walking(th.pc)
    ensures var th' := Stepped(s, th); th'.since == th.since && th'.snap == th.snap && th'.op == th.op
  {
  }

  lemma OwnSearched<T>(run: seq<State<T>>, i: nat, t: nat)
    requires i + 1 < |run| && Shape(run[i]) && Can(run[i], Move(t)) && run[i + 1] == DoMove(run[i], t)
    requires Searched(run, i, run[i].threads[t]) && Snapped(run, i, run[i].threads[t])
    requires Ordered(run[i], run[i + 1])
    ensures Searched(run, i + 1, Stepped(run[i], run[i].threads[t]))
  {
    var s, th := run[i], run[i].threads[t];
    var th' := Stepped(s, th);
    var over := Over(run, i + 1, th');
    SelfPlace(s, t);
    StepLoaded(run, i, th);
    if th.pc.WalkHead? {
      SearchStart(s, th, over);
    } else if Searching(th'.pc) {
      GoesOnSearching(s, th);
      OverGrows(run, i, th, th');
      SearchMore(s, th, Over(run, i, th), over);
      if th'.pc.WalkAdvance? {
        PassAccounted(run, i, th);
      }
      SelfSearch(s, th, over);
    }
    SearchStable(s, run[i + 1], th', over, over);
  }

  /** A call that has just begun, or is over, searches nothing yet. */
  lemma CallSearched<T>(run: seq<State<T>>, i: nat, m: Mem<T>, th: Thread<T>)
    requires i < |run| && (th.pc.Idle? || th.pc == CallPC(m, th.op))
    ensures Searched(run, i, th)
  {
  }

  lemma NextSearched<T>(run: seq<State<T>>, l: Label<T>, i: nat, t: nat)
    requires i + 1 < |run| && Shape(run[i]) && Can(run[i], l) && run[i + 1] == Do(run[i], l)
    requires t in run[i].threads && Searched(run, i, run[i].threads[t]) && Snapped(run, i, run[i].threads[t])
    requires t in run[i + 1].threads
    ensures Searched(run, i + 1, run[i + 1].threads[t])
  {
    DoOrdered(run[i], l);
    if t != l.tid {
      OtherSearched(run, i, run[i].threads[t]);
    } else if l.Move? {
      OwnSearched(run, i, t);
    } else {
      CallSearched(run, i + 1, run[i].mem, run[i + 1].threads[t]);
    }
  }

  lemma SameThreads<T>(s: State<T>, l: Label<T>)
    requires Can(s, l)
    ensures Do(s, l).threads.Keys == s.threads.Keys
  {
  }

  lemma {:induction false} RunSearched<T>(run: seq<State<T>>, labels: seq<Label<T>>, i: nat, t: nat)
    requires IsRun(run, labels) && i < |run| && t in run[i].threads
    ensures Searched(run, i, run[i].threads[t])
  {
    if i > 0 {
      var s, l := run[i - 1], labels[i - 1];
      assert Can(s, l) && run[i] == Do(s, l);
      SameThreads(s, l);
      RunSearched(run, labels, i - 1, t);
      assert Snapped(run, i - 1, s.threads[t]) by { RunSnaps(run, labels, i - 1, t); }
      assert Shape(s) by { RunShape(run, labels, i - 1); }
      NextSearched(run, l, i - 1, t);
    }
  }

  // ---------- Theorems ----------

  /** Thread t has come to the tail sentinel, with nothing to return or, in RemoveFunc, through. */
  ghost predicate ComesToEnd<T>(s: State<T>, t: nat) {
    t in s.threads && s.threads[t].pc.WalkTest? && Search(s.threads[t].pc.w) && s.threads[t].pc.curr == TAIL
  }

  /** The nodes that were attached when the walk of thread t loaded head.next. */
  ghost function Attached<T>(run: seq<State<T>>, i: nat, t: nat): seq<nat>
    requires i < |run| && t in run[i].threads && run[i].threads[t].since < |run|
  {
    var s := run[run[i].threads[t].since];
    Chain(s, if 0 <= Last(s) then Last(s) else 0)
  }

  /** Every node that was attached when the walk began is accounted for by a state of the walk:
      there it was dead or held an element that is not wanted. RemoveFunc may also have passed a
      node that somebody wrote during the walk. */
  lemma NothingMissed<T>(run: seq<State<T>>, labels: seq<Label<T>>, i: nat, t: nat)
    requires IsRun(run, labels) && i < |run| && ComesToEnd(run[i], t)
    ensures var th := run[i].threads[t];
            && th.since < i && (Turn(run[i].mem, th.pc).0 == WalkEnd(th.pc.w))
            && forall n :: n in Attached(run, i, t) ==> Accounted(run, th.since, i, th.op, n)
  {
    var th := run[i].threads[t];
    RunSnaps(run, labels, i, t);
    RunSearched(run, labels, i, t);
    forall n | n in th.snap
      ensures Accounted(run, th.since, i, th.op, n)
    {
      assert n in Over(run, i, th);
    }
  }

  /** RemoveFirst and RemoveLast find nothing only if every node that was attached when they
      loaded head.next, for the last time, is dead. */
  lemma DeadAtEnd<T>(run: seq<State<T>>, labels: seq<Label<T>>, i: nat, t: nat)
    requires IsRun(run, labels) && i < |run| && ComesToEnd(run[i], t)
    requires run[i].threads[t].op.RemoveFirst? || run[i].threads[t].op.RemoveLast?
    ensures Turn(run[i].mem, run[i].threads[t].pc).0 == Done(Missing)
    ensures run[i].threads[t].since < i && forall n :: n in Attached(run, i, t) ==> Cell(run[i].mem, n).Nil?
  {
    var th := run[i].threads[t];
    RunShape(run, labels, i);
    assert PlaceOk(run[i], th);
    NothingMissed(run, labels, i, t);
    forall n | n in Attached(run, i, t)
      ensures Cell(run[i].mem, n).Nil?
    {
      var k: nat :| During(th.since, k, i) && Spared(th.op, Cell(run[k].mem, n));
      RunShape(run, labels, th.since);
      PublishedThere(run, labels, th.since, k, n);
      DeletedForever(run, labels, k, i, n);
    }
  }

  /** Remove finds nothing only if every such node was, in some state of the walk, dead or held
      an element that does not match; so one that matches now has been written meanwhile. */
  lemma UnmatchedAtEnd<T>(run: seq<State<T>>, labels: seq<Label<T>>, i: nat, t: nat)
    requires IsRun(run, labels) && i < |run| && ComesToEnd(run[i], t) && run[i].threads[t].op.Remove?
    ensures Turn(run[i].mem, run[i].threads[t].pc).0 == Done(Ok(false))
    ensures var th := run[i].threads[t];
            th.since < i && forall n :: n in Attached(run, i, t) ==>
              SparedOnce(run, th.since, i, th.op, n) &&
              (Spared(th.op, Cell(run[i].mem, n)) || Rewritten(run, th.since, i, n))
  {
    var th := run[i].threads[t];
    RunShape(run, labels, i);
    assert PlaceOk(run[i], th);
    NothingMissed(run, labels, i, t);
    forall n | n in Attached(run, i, t)
      ensures Spared(th.op, Cell(run[i].mem, n)) || Rewritten(run, th.since, i, n)
    {
      SparedOrRewritten(run, th.since, i, th.op, n);
    }
  }

  /** What RemoveFunc leaves of those nodes is dead, fails the predicate, or has been written
      while it was walking: the only elements its skipped CAS can miss. */
  lemma RejectedAtEnd<T>(run: seq<State<T>>, labels: seq<Label<T>>, i: nat, t: nat)
    requires IsRun(run, labels) && i < |run| && ComesToEnd(run[i], t) && run[i].threads[t].op.RemoveFunc?
    ensures Turn(run[i].mem, run[i].threads[t].pc).0 == Done(Count(run[i].threads[t].made))
    ensures var th := run[i].threads[t];
            th.since < i && forall n :: n in Attached(run, i, t) ==>
              Spared(th.op, Cell(run[i].mem, n)) || Rewritten(run, th.since, i, n)
  {
    var th := run[i].threads[t];
    RunShape(run, labels, i);
    assert PlaceOk(run[i], th);
    NothingMissed(run, labels, i, t);
    forall n | n in Attached(run, i, t)
      ensures Spared(th.op, Cell(run[i].mem, n)) || Rewritten(run, th.since, i, n)
    {
      if SparedOnce(run, th.since, i, th.op, n) {
        SparedOrRewritten(run, th.since, i, th.op, n);
      }
    }
  }

  lemma SparedOrRewritten<T>(run: seq<State<T>>, since: nat, i: nat, op: Op<T>, n: nat)
    requires SparedOnce(run, since, i, op, n) && since < i
    ensures Spared(op, Cell(run[i].mem, n)) || Rewritten(run, since, i, n)
  {
    var k: nat :| During(since, k, i) && Spared(op, Cell(run[k].mem, n));
    assert During(since, i, i);
  }

  lemma PublishedThere<T>(run: seq<State<T>>, labels: seq<Label<T>>, i: nat, k: nat, n: nat)
    requires IsRun(run, labels) && i <= k < |run| && Shape(run[i])
    requires 0 <= Last(run[i]) && n in run[i].chains[Last(run[i])]
    ensures n < run[k].mem.brk
  {
    assert ChainOk(run[i].mem, run[i].home, Last(run[i]), run[i].chains[Last(run[i])]);
    RunOrdered(run, labels, i, k);
    RunShape(run, labels, k);
    HomeNodes(run[k].mem, run[k].home, run[k].chains);
  }
}
