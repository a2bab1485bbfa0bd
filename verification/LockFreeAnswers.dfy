/**
 What the answers of the lock-free list mean while other threads change it: which node an
 operation that succeeds has hit, and what must have been so for one to say that there is none.
 */
module LockFreeAnswers {
  import opened LockFreeMachine
  import opened LockFreeShape
  import opened LockFreeReach
  import opened LockFreePointers
  import opened LockFreeAccounts
  import opened LockFreeWalk
  import opened LockFreeMisses
  import opened LockFreeHits

  // ---------- Successful operations ----------

  /** Step i is thread t's CAS on a node, and it succeeds. */
  ghost predicate Swaps<T>(run: seq<State<T>>, labels: seq<Label<T>>, i: nat, t: nat) {
    && i < |labels| && i < |run| && labels[i] == Move(t) && Can(run[i], Move(t))
    && Turn(run[i].mem, run[i].threads[t].pc).1.Swap?
  }

  ghost predicate Publishes<T>(run: seq<State<T>>, labels: seq<Label<T>>, i: nat, t: nat) {
    && i < |labels| && i < |run| && labels[i] == Move(t) && Can(run[i], Move(t))
    && Turn(run[i].mem, run[i].threads[t].pc).1.Publish?
  }

  function Target<T>(s: State<T>, t: nat): nat
    requires t in s.threads
  {
    match Turn(s.mem, s.threads[t].pc).1
    case Swap(n, _) => n
    case Publish(pred, _) => pred
    case _ => NIL
  }

  /** The nodes found live since head.next was last loaded: exactly these, in chain order, each
      of them live in some state of the walk. */
  ghost predicate FoundLive<T>(run: seq<State<T>>, i: nat, th: Thread<T>, found: seq<nat>) {
    i < |run| && InChainOrder(Chain(run[i], th.gen), found) && AllLive(run, th.since, i, found)
  }

  lemma NotAhead(c: seq<nat>, a: nat, b: nat)
    requires StrictlyBefore(c, a, b)
    ensures !Before(c, b, a)
  {
  }

  lemma SwapPlace<T>(run: seq<State<T>>, labels: seq<Label<T>>, i: nat, t: nat)
    requires IsRun(run, labels) && Swaps(run, labels, i, t)
    ensures var th := run[i].threads[t];
            && th.pc.WalkCas? && th.pc.curr == Target(run[i], t) && PlaceOk(run[i], th)
            && th.since < i && th.snap == Attached(run, i, t)
            && Target(run[i], t) in Chain(run[i], th.gen) && Target(run[i], t) != TAIL
            && Cell(run[i].mem, Target(run[i], t)).Ref?
  {
    assert Shape(run[i]) by { RunShape(run, labels, i); }
    RunSnaps(run, labels, i, t);
    SwapWalk(run[i].mem, run[i].threads[t].pc);
    TurnEffect(run[i], t);
    AtNodeHome(run[i], run[i].threads[t], Target(run[i], t));
  }

  /** Set and RemoveAt hit a live node before which, since they last loaded head.next, exactly
      `index` nodes were found live; any other node that was attached then and lies before it
      was dead in some state of the walk. */
  lemma IndexHit<T>(run: seq<State<T>>, labels: seq<Label<T>>, i: nat, t: nat) returns (found: seq<nat>)
    requires IsRun(run, labels) && Swaps(run, labels, i, t)
    requires run[i].threads[t].op.SetAt? || run[i].threads[t].op.RemoveAt?
    ensures var th, n := run[i].threads[t], Target(run[i], t);
            var c := Chain(run[i], th.gen);
            && |found| == th.op.index && FoundLive(run, i, th, found) && Cell(run[i].mem, n).Ref?
            && (forall f :: f in found ==> StrictlyBefore(c, f, n))
            && th.since < i
            && forall x :: x in Attached(run, i, t) && StrictlyBefore(c, x, n) && x !in found ==>
               DeadOnce(run, th.since, i, x)
  {
    SwapPlace(run, labels, i, t);
    found := RunCounted(run, labels, i, t);
    var th, n := run[i].threads[t], Target(run[i], t);
    ChosenView(run[i], th);
    CountedBefore(run, i, th, found, n);
  }

  /** Set and RemoveAt attempt their CAS at the index. */
  lemma ChosenView<T>(s: State<T>, th: Thread<T>)
    requires PlaceOk(s, th) && th.pc.WalkCas? && (th.op.SetAt? || th.op.RemoveAt?)
    ensures ViewOf(th.pc) == On(th.pc.curr, th.op.index)
  {
    match th.pc.w
    case SetW(_, _, _) =>
    case RemoveAtW(_, _) =>
    case _ =>
  }

  /** Nodes before the place that have not been counted have been seen dead. */
  lemma CountedBefore<T>(run: seq<State<T>>, i: nat, th: Thread<T>, found: seq<nat>, n: nat)
    requires Counted(run, i, th, found) && !ViewOf(th.pc).Off? && ViewOf(th.pc).curr == n
    ensures forall x :: x in th.snap && StrictlyBefore(Chain(run[i], th.gen), x, n) && x !in found ==>
              DeadOnce(run, th.since, i, x)
  {
    var c := Chain(run[i], th.gen);
    forall x | x in th.snap && StrictlyBefore(c, x, n) && x !in found
      ensures DeadOnce(run, th.since, i, x)
    {
      NotAhead(c, x, n);
      assert x in Dealt(run, i, th, found);
    }
  }

  /** Insert with an index above 0 puts its node right behind the last of exactly `index` nodes
      found live since it last loaded head.next; any other node that was attached then and lies
      before the new one was dead in some state of the walk. */
  lemma InsertHit<T>(run: seq<State<T>>, labels: seq<Label<T>>, i: nat, t: nat) returns (found: seq<nat>)
    requires IsRun(run, labels) && Publishes(run, labels, i, t)
    requires run[i].threads[t].op.Insert? && run[i].threads[t].op.index > 0
    ensures var th, pred := run[i].threads[t], Target(run[i], t);
            var c := Chain(run[i], th.gen);
            && |found| == th.op.index && FoundLive(run, i, th, found) && found[|found| - 1] == pred
            && th.since < i
            && forall x :: x in Attached(run, i, t) && Before(c, x, pred) && x !in found ==>
               DeadOnce(run, th.since, i, x)
  {
    PublishPlace(run, labels, i, t);
    found := RunCounted(run, labels, i, t);
    CountedBefore(run, i, run[i].threads[t], found, Target(run[i], t));
  }

  lemma PublishPlace<T>(run: seq<State<T>>, labels: seq<Label<T>>, i: nat, t: nat)
    requires IsRun(run, labels) && Publishes(run, labels, i, t)
    requires run[i].threads[t].op.Insert? && run[i].threads[t].op.index > 0
    ensures var th := run[i].threads[t];
            && th.pc.InsertCas? && th.pc.pred == Target(run[i], t) && th.pc.index == th.op.index
            && th.since < i && th.snap == Attached(run, i, t)
  {
    var th := run[i].threads[t];
    assert OwnOk(run[i], t, th) && PlaceOk(run[i], th) by { RunShape(run, labels, i); }
    RunSnaps(run, labels, i, t);
    InsertPublishes(run[i].mem, th.pc);
  }

  lemma InsertPublishes<T>(m: Mem<T>, pc: PC<T>)
    requires Turn(m, pc).1.Publish?
    ensures pc.AppendWalk? || pc.HeadCas? || (pc.InsertCas? && Turn(m, pc).1 == Publish(pc.pred, [pc.node]))
  {
  }

  /** RemoveFirst and Remove take the first node that will do: any attached one before it was, in
      some state of the walk, dead or held an element that does not match. */
  lemma FirstHit<T>(run: seq<State<T>>, labels: seq<Label<T>>, i: nat, t: nat)
    requires IsRun(run, labels) && Swaps(run, labels, i, t)
    requires run[i].threads[t].op.RemoveFirst? || run[i].threads[t].op.Remove?
    ensures var th, n := run[i].threads[t], Target(run[i], t);
            && th.since < i && Cell(run[i].mem, n).Ref? && Wanted(th.op, Cell(run[i].mem, n).value)
            && forall x :: x in Attached(run, i, t) && StrictlyBefore(Chain(run[i], th.gen), x, n) ==>
                 SparedOnce(run, th.since, i, th.op, x)
  {
    SwapPlace(run, labels, i, t);
    RunSearched(run, labels, i, t);
    var th, n := run[i].threads[t], Target(run[i], t);
    RunBoxes(run, labels, i);
    assert HeldOk(run[i], t, th.pc);
    SwapWalk(run[i].mem, th.pc);
    CasSame(run[i], n, th.pc.v);
    forall x | x in th.snap && StrictlyBefore(Chain(run[i], th.gen), x, n)
      ensures SparedOnce(run, th.since, i, th.op, x)
    {
      NotAhead(Chain(run[i], th.gen), x, n);
      assert x in Over(run, i, th);
    }
  }

  /** RemoveLast takes the last live node: any attached one behind it was dead in some state of
      the walk. */
  lemma LastHit<T>(run: seq<State<T>>, labels: seq<Label<T>>, i: nat, t: nat)
    requires IsRun(run, labels) && Swaps(run, labels, i, t) && run[i].threads[t].op.RemoveLast?
    ensures var th, n := run[i].threads[t], Target(run[i], t);
            && th.since < i && Cell(run[i].mem, n).Ref?
            && forall x :: x in Attached(run, i, t) && StrictlyBefore(Chain(run[i], th.gen), n, x) ==>
                 DeadOnce(run, th.since, i, x)
  {
    SwapPlace(run, labels, i, t);
    RunLast(run, labels, i, t);
    var th, n := run[i].threads[t], Target(run[i], t);
    forall x | x in th.snap && StrictlyBefore(Chain(run[i], th.gen), n, x)
      ensures DeadOnce(run, th.since, i, x)
    {
      NotAhead(Chain(run[i], th.gen), n, x);
      assert x in Rest(run, i, th, Chain(run[i], th.gen), th.pc.w.last);
    }
  }

  // ---------- Negative answers ----------

  /** Answers that only a walk over the whole chain may give. */
  predicate Exhausted<T>(op: Op<T>, res: Result<T>) {
    match op
    case Insert(index, _) => index > 0 && res == Ok(false)
    case SetAt(index, _) => index >= 0 && res == Missing
    case RemoveAt(index) => index >= 0 && res == Missing
    case RemoveFirst => res == Missing
    case RemoveLast => res == Missing
    case Remove(_) => res == Ok(false)
    case RemoveFunc(_) => true
    case ToSlice => true
    case _ => false
  }

  predicate AtTail<T>(pc: PC<T>) {
    (pc.WalkTest? || pc.InsertTest?) && pc.curr == TAIL
  }

  lemma WalkEnds<T>(s: State<T>, t: nat, th: Thread<T>)
    requires ChainsOk(s.mem, s.home, s.chains) && PlaceOk(s, th) && Walking(th.pc)
    requires Turn(s.mem, th.pc).0.Done? && Exhausted(th.op, Turn(s.mem, th.pc).0.res)
    ensures AtTail(th.pc)
  {
    if th.pc.WalkTest? {
      WalkNotNil(s, th);
    }
    match th.pc.w
    case LastW(_, _) =>
    case FuncW(_, _) =>
    case _ =>
  }

  lemma LinkEnds<T>(s: State<T>, t: nat, th: Thread<T>)
    requires ChainsOk(s.mem, s.home, s.chains) && OwnOk(s, t, th) && PlaceOk(s, th) && !Walking(th.pc)
    requires !th.pc.Idle? && !th.pc.Done?
    requires Turn(s.mem, th.pc).0.Done? && Exhausted(th.op, Turn(s.mem, th.pc).0.res)
    ensures AtTail(th.pc)
  {
    if th.pc.InsertTest? && th.pc.curr != TAIL {
      AtNodeHome(s, th, th.pc.curr);
    }
  }

  lemma CallEnds<T>(m: Mem<T>, op: Op<T>)
    ensures CallPC(m, op).Done? ==> !Exhausted(op, CallPC(m, op).res)
  {
  }

  /** Step m is the one in which thread t came to the tail sentinel and settled on the answer
      that it still has in state i. */
  ghost predicate CameToEnd<T>(run: seq<State<T>>, labels: seq<Label<T>>, m: nat, i: nat, t: nat) {
    && m < i < |run| && m < |labels| && labels[m] == Move(t) && t in run[m].threads && t in run[i].threads
    && AtTail(run[m].threads[t].pc)
    && run[m].threads[t].call == run[i].threads[t].call && run[m].threads[t].op == run[i].threads[t].op
    && Turn(run[m].mem, run[m].threads[t].pc).0 == run[i].threads[t].pc
  }

  lemma StepBack<T>(s: State<T>, l: Label<T>, t: nat)
    requires Shape(s) && Can(s, l) && t in s.threads && t in Do(s, l).threads
    requires var th' := Do(s, l).threads[t]; th'.pc.Done? && Exhausted(th'.op, th'.pc.res)
    ensures var th, th' := s.threads[t], Do(s, l).threads[t];
            && th.call == th'.call && th.op == th'.op
            && (th.pc == th'.pc || (l == Move(t) && AtTail(th.pc) && Turn(s.mem, th.pc).0 == th'.pc))
  {
    if t == l.tid {
      match l
      case Begin(_, op) => CallEnds(s.mem, op);
      case Move(_) => MoveEnds(s, t);
      case Finish(_) =>
    }
  }

  lemma MoveEnds<T>(s: State<T>, t: nat)
    requires Shape(s) && Can(s, Move(t)) && Turn(s.mem, s.threads[t].pc).0.Done?
    requires Exhausted(s.threads[t].op, Turn(s.mem, s.threads[t].pc).0.res)
    ensures AtTail(s.threads[t].pc)
  {
    var th := s.threads[t];
    assert OwnOk(s, t, th) && PlaceOk(s, th);
    if Walking(th.pc) {
      WalkEnds(s, t, th);
    } else {
      LinkEnds(s, t, th);
    }
  }

  /** Such an answer was settled on at the tail sentinel. */
  lemma {:induction false} FromTheEnd<T>(run: seq<State<T>>, labels: seq<Label<T>>, i: nat, t: nat) returns (m: nat)
    requires IsRun(run, labels) && i < |run| && t in run[i].threads && run[i].threads[t].pc.Done?
    requires Exhausted(run[i].threads[t].op, run[i].threads[t].pc.res)
    ensures CameToEnd(run, labels, m, i, t)
  {
    var s, l := run[i - 1], labels[i - 1];
    assert Can(s, l) && run[i] == Do(s, l);
    SameThreads(s, l);
    assert Shape(s) by { RunShape(run, labels, i - 1); }
    StepBack(s, l, t);
    if s.threads[t].pc == run[i].threads[t].pc {
      m := FromTheEnd(run, labels, i - 1, t);
    } else {
      m := i - 1;
    }
  }

  /** A call that has returned is on record with the answer its thread had settled on. */
  lemma {:induction false} Recorded<T>(run: seq<State<T>>, labels: seq<Label<T>>, i: nat, c: nat)
    returns (e: nat, t: nat)
    requires IsRun(run, labels) && i < |run| && c in run[i].ended
    ensures e < i && e < |labels| && labels[e] == Finish(t) && t in run[e].threads
    ensures var th := run[e].threads[t];
            th.pc == Done(run[i].ended[c].res) && th.op == run[i].ended[c].op && th.call == c
  {
    var s, l := run[i - 1], labels[i - 1];
    assert Can(s, l) && run[i] == Do(s, l);
    if l.Finish? && s.threads[l.tid].call == c {
      e, t := i - 1, l.tid;
    } else {
      e, t := Recorded(run, labels, i - 1, c);
    }
  }

  // ---------- What negative answers mean ----------

  /** Insert at index 0 always succeeds, however often it loses the race, and at a negative index
      it never does. */
  lemma InsertAtEnds<T>(run: seq<State<T>>, labels: seq<Label<T>>, i: nat, t: nat)
    requires IsRun(run, labels) && i < |run| && t in run[i].threads && run[i].threads[t].pc.Done?
    requires run[i].threads[t].op.Insert?
    ensures var th := run[i].threads[t];
            (th.op.index == 0 ==> th.pc.res == Ok(true)) && (th.op.index < 0 ==> th.pc.res == Ok(false))
  {
    RunMade(run, labels, i);
    assert MadeOk(run[i].threads[t]);
  }

  /** Nodes of the snapshot that were live in every state of the walk. */
  ghost function AlwaysLive<T>(run: seq<State<T>>, since: nat, i: nat, snap: seq<nat>): set<nat> {
    set n | n in snap && !DeadOnce(run, since, i, n)
  }

  /** How many live elements there must be for the index to be good. */
  function Needed<T>(op: Op<T>): int {
    match op
    case Insert(index, _) => index
    case SetAt(index, _) => index + 1
    case RemoveAt(index) => index + 1
    case _ => 0
  }

  ghost function Elems(s: seq<nat>): set<nat> {
    set n | n in s
  }

  lemma {:induction false} ElemCount(s: seq<nat>)
    ensures |Elems(s)| <= |s|
  {
    if s == [] {
      assert Elems(s) == {};
    } else {
      ElemCount(s[1..]);
      assert s == [s[0]] + s[1..];
      assert Elems(s) == Elems(s[1..]) + {s[0]};
    }
  }

  lemma SubsetCount(a: set<nat>, b: set<nat>)
    requires a <= b
    ensures |a| <= |b|
  {
    assert b == a + (b - a);
  }

  /** Insert, Set and RemoveAt refuse an index only if, since they last loaded head.next, fewer of
      the nodes attached then were live in every state than the index needs. */
  lemma RefusedMeansShort<T>(run: seq<State<T>>, labels: seq<Label<T>>, i: nat, t: nat) returns (m: nat)
    requires IsRun(run, labels) && i < |run| && t in run[i].threads && run[i].threads[t].pc.Done?
    requires var op := run[i].threads[t].op; op.Insert? || op.SetAt? || op.RemoveAt?
    requires Exhausted(run[i].threads[t].op, run[i].threads[t].pc.res)
    ensures CameToEnd(run, labels, m, i, t) && run[m].threads[t].since < m
    ensures |AlwaysLive(run, run[m].threads[t].since, m, Attached(run, m, t))| < Needed(run[i].threads[t].op)
  {
    m := FromTheEnd(run, labels, i, t);
    ShortAtEnd(run, labels, m, t);
  }

  lemma ShortAtEnd<T>(run: seq<State<T>>, labels: seq<Label<T>>, m: nat, t: nat)
    requires IsRun(run, labels) && m < |run| && t in run[m].threads && AtTail(run[m].threads[t].pc)
    requires var op := run[m].threads[t].op; op.Insert? || op.SetAt? || op.RemoveAt?
    ensures run[m].threads[t].since < m
    ensures |AlwaysLive(run, run[m].threads[t].since, m, Attached(run, m, t))| < Needed(run[m].threads[t].op)
  {
    var th := run[m].threads[t];
    assert OwnOk(run[m], t, th) && PlaceOk(run[m], th) by { RunShape(run, labels, m); }
    RunSnaps(run, labels, m, t);
    var found := RunCounted(run, labels, m, t);
    CountAtTail(run[m], t, th);
    ShortCount(run, m, th, found);
  }

  /** A counting loop at the tail sentinel has not counted enough. */
  lemma CountAtTail<T>(s: State<T>, t: nat, th: Thread<T>)
    requires OwnOk(s, t, th) && PlaceOk(s, th) && AtTail(th.pc)
    requires th.op.Insert? || th.op.SetAt? || th.op.RemoveAt?
    ensures ViewOf(th.pc).On? && ViewOf(th.pc).curr == TAIL && ViewOf(th.pc).i < Needed(th.op)
  {
  }

  lemma ShortCount<T>(run: seq<State<T>>, m: nat, th: Thread<T>, found: seq<nat>)
    requires Counted(run, m, th, found) && ViewOf(th.pc).On? && ViewOf(th.pc).curr == TAIL
    ensures |AlwaysLive(run, th.since, m, th.snap)| <= ViewOf(th.pc).i
  {
    var live := AlwaysLive(run, th.since, m, th.snap);
    forall n | n in live
      ensures n in Elems(found)
    {
      assert n in Dealt(run, m, th, found);
    }
    SubsetCount(live, Elems(found));
    ElemCount(found);
  }

  /** RemoveFirst and RemoveLast find nothing only if every node that was attached when they
      loaded head.next, for the last time, is dead. */
  lemma MissingMeansDead<T>(run: seq<State<T>>, labels: seq<Label<T>>, i: nat, t: nat) returns (m: nat)
    requires IsRun(run, labels) && i < |run| && t in run[i].threads && run[i].threads[t].pc == Done(Missing)
    requires run[i].threads[t].op.RemoveFirst? || run[i].threads[t].op.RemoveLast?
    ensures CameToEnd(run, labels, m, i, t) && run[m].threads[t].since < m
    ensures forall n :: n in Attached(run, m, t) ==> Cell(run[m].mem, n).Nil?
  {
    m := FromTheEnd(run, labels, i, t);
    SearchAtEnd(run, labels, m, i, t);
    DeadAtEnd(run, labels, m, t);
  }

  /** Remove finds nothing only if every such node was, in some state of the walk, dead or held
      an element that does not match; so one that matches at the end has been written meanwhile. */
  lemma NotFoundMeansUnmatched<T>(run: seq<State<T>>, labels: seq<Label<T>>, i: nat, t: nat) returns (m: nat)
    requires IsRun(run, labels) && i < |run| && t in run[i].threads && run[i].threads[t].pc == Done(Ok(false))
    requires run[i].threads[t].op.Remove?
    ensures CameToEnd(run, labels, m, i, t) && run[m].threads[t].since < m
    ensures var th := run[m].threads[t];
            forall n :: n in Attached(run, m, t) ==>
              SparedOnce(run, th.since, m, th.op, n) &&
              (Spared(th.op, Cell(run[m].mem, n)) || Rewritten(run, th.since, m, n))
  {
    m := FromTheEnd(run, labels, i, t);
    SearchAtEnd(run, labels, m, i, t);
    UnmatchedAtEnd(run, labels, m, t);
  }

  /** What RemoveFunc leaves of those nodes is dead, fails the predicate, or has been written
      while it was walking: the only elements its skipped CAS can miss. */
  lemma LeftMeansRejected<T>(run: seq<State<T>>, labels: seq<Label<T>>, i: nat, t: nat) returns (m: nat)
    requires IsRun(run, labels) && i < |run| && t in run[i].threads && run[i].threads[t].pc.Done?
    requires run[i].threads[t].op.RemoveFunc?
    ensures CameToEnd(run, labels, m, i, t) && run[m].threads[t].since < m
    ensures run[i].threads[t].pc == Done(Count(run[m].threads[t].made))
    ensures var th := run[m].threads[t];
            forall n :: n in Attached(run, m, t) ==>
              Spared(th.op, Cell(run[m].mem, n)) || Rewritten(run, th.since, m, n)
  {
    m := FromTheEnd(run, labels, i, t);
    SearchAtEnd(run, labels, m, i, t);
    RejectedAtEnd(run, labels, m, t);
  }

  lemma SearchAtEnd<T>(run: seq<State<T>>, labels: seq<Label<T>>, m: nat, i: nat, t: nat)
    requires IsRun(run, labels) && CameToEnd(run, labels, m, i, t)
    requires var op := run[i].threads[t].op; op.RemoveFirst? || op.RemoveLast? || op.Remove? || op.RemoveFunc?
    requires run[i].threads[t].pc.Done?
    ensures ComesToEnd(run[m], t)
  {
    var th := run[m].threads[t];
    assert OwnOk(run[m], t, th) && PlaceOk(run[m], th) by { RunShape(run, labels, m); }
  }

  /** ToSlice answers with what it reported: distinct nodes in chain order, and among them every
      one that was attached when it loaded head.next and was live when it came to the end. */
  lemma SliceMeansComplete<T>(run: seq<State<T>>, labels: seq<Label<T>>, i: nat, t: nat)
    returns (m: nat, hits: seq<(nat, Ptr<T>)>)
    requires IsRun(run, labels) && i < |run| && t in run[i].threads && run[i].threads[t].pc.Done?
    requires run[i].threads[t].op.ToSlice?
    ensures CameToEnd(run, labels, m, i, t) && run[m].threads[t].since < m && run[i].threads[t].pc.res.Slice?
    ensures var acc := run[i].threads[t].pc.res.elems;
            && |acc| == |hits| && (forall k :: 0 <= k < |acc| ==> hits[k].1.Ref? && acc[k] == hits[k].1.value)
            && InChainOrder(Chain(run[m], run[m].threads[t].gen), Nodes(hits))
            && (forall k :: 0 <= k < |acc| ==> SeenAt(run, run[m].threads[t].since, m, hits[k]))
            && forall n :: n in Attached(run, m, t) && Cell(run[m].mem, n).Ref? ==> n in Nodes(hits)
  {
    m := FromTheEnd(run, labels, i, t);
    var th := run[m].threads[t];
    assert OwnOk(run[m], t, th) && PlaceOk(run[m], th) by { RunShape(run, labels, m); }
    hits := th.pc.w.hits;
    TraversalComplete(run, labels, m, t, th.pc.w.acc, hits);
    ReportsCurrent(run, labels, m, t);
  }
}
