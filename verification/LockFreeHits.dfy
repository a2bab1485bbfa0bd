/**
 Which node an operation hits, and when it may say that there is none, whatever the other
 threads do meanwhile. An index counts the nodes that were found live since head.next was last
 loaded; a negative answer is given only by a walk that stands at the tail sentinel.
 */
module LockFreeHits {
  import opened Common
  import opened LockFreeMachine
  import opened LockFreeShape
  import opened LockFreeReach
  import opened LockFreeWalk
  import opened LockFreeMisses

  // ---------- Counting loops ----------

  /** Where a loop that counts live nodes is: at the node it looks at next or has chosen, or past
      the one it has just looked at; i live nodes have been counted. */
  datatype View = Off | On(curr: nat, i: nat) | Past(curr: nat, i: nat)

  function CountOf<T>(w: Walk<T>): nat {
    match w
    case SetW(_, _, i) => i
    case RemoveAtW(_, i) => i
    case _ => 0
  }

  predicate Counting<T>(w: Walk<T>) { w.SetW? || w.RemoveAtW? }

  function ViewOf<T>(pc: PC<T>): View {
    match pc
    case InsertTest(_, _, _, curr, i) => On(curr, i)
    case InsertAdvance(_, _, pred, i) => Past(pred, i)
    case InsertNext(_, index, pred) => Past(pred, index)
    case InsertStore(_, index, pred, _) => Past(pred, index)
    case InsertCas(_, index, pred, _) => Past(pred, index)
    case WalkTest(w, curr) => if Counting(w) then On(curr, CountOf(w)) else Off
    case WalkAdvance(w, curr) => if Counting(w) then Past(curr, CountOf(w)) else Off
    case WalkCas(w, curr, _) => if Counting(w) then On(curr, CountOf(w)) else Off
    case WalkReload(w, curr) => if Counting(w) then On(curr, CountOf(w)) else Off
    case _ => Off
  }

  /** A step starts at the first node, stays, passes a dead node, counts a live one, or goes on
      to the next node. */
  ghost predicate ViewStep<T>(m: Mem<T>, v: View, v': View, start: bool) {
    match v
    case Off => v'.Off? || (start && v' == On(Next(m, HEAD), 0))
    case On(curr, i) =>
      v'.Off? || v' == v || (Cell(m, curr).Nil? && v' == Past(curr, i)) ||
        (Cell(m, curr).Ref? && v' == Past(curr, i + 1))
    case Past(curr, i) => v'.Off? || v' == v || v' == On(Next(m, curr), i)
  }

  lemma WalkView<T>(m: Mem<T>, pc: PC<T>)
    requires Walking(pc) && (pc.WalkHead? ==> Unstarted(pc.w))
    ensures ViewStep(m, ViewOf(pc), ViewOf(Turn(m, pc).0), LoadsHead(pc))
  {
    match pc.w
    case SetW(_, _, _) =>
    case RemoveAtW(_, _) =>
    case LastW(_, _) =>
    case _ =>
  }

  lemma TurnView<T>(s: State<T>, th: Thread<T>)
    requires PlaceOk(s, th)
    ensures ViewStep(s.mem, ViewOf(th.pc), ViewOf(Turn(s.mem, th.pc).0), LoadsHead(th.pc))
  {
    if Walking(th.pc) {
      WalkView(s.mem, th.pc);
    }
  }

  // ---------- What has been counted ----------

  ghost predicate LiveOnce<T>(run: seq<State<T>>, since: nat, i: nat, n: nat) {
    i < |run| && exists k: nat :: During(since, k, i) && Cell(run[k].mem, n).Ref?
  }

  ghost predicate DeadOnce<T>(run: seq<State<T>>, since: nat, i: nat, n: nat) {
    i < |run| && exists k: nat :: During(since, k, i) && Cell(run[k].mem, n).Nil?
  }

  lemma LaterOnce<T>(run: seq<State<T>>, since: nat, i: nat, n: nat)
    requires i + 1 < |run|
    ensures LiveOnce(run, since, i, n) ==> LiveOnce(run, since, i + 1, n)
    ensures DeadOnce(run, since, i, n) ==> DeadOnce(run, since, i + 1, n)
  {
    if LiveOnce(run, since, i, n) {
      var k: nat :| During(since, k, i) && Cell(run[k].mem, n).Ref?;
      assert During(since, k, i + 1);
    }
    if DeadOnce(run, since, i, n) {
      var k: nat :| During(since, k, i) && Cell(run[k].mem, n).Nil?;
      assert During(since, k, i + 1);
    }
  }

  /** The nodes of the snapshot that have been counted, or seen dead. */
  ghost function Dealt<T>(run: seq<State<T>>, i: nat, th: Thread<T>, found: seq<nat>): set<nat> {
    set n | n in th.snap && (n in found || DeadOnce(run, th.since, i, n))
  }

  lemma DealtGrows<T>(run: seq<State<T>>, i: nat, th: Thread<T>, th': Thread<T>, found: seq<nat>, found': seq<nat>)
    requires i + 1 < |run| && th'.since == th.since && th'.snap == th.snap && forall n :: n in found ==> n in found'
    ensures Dealt(run, i, th, found) <= Dealt(run, i + 1, th', found')
  {
    forall n | n in Dealt(run, i, th, found)
      ensures n in Dealt(run, i + 1, th', found')
    {
      LaterOnce(run, th.since, i, n);
    }
  }

  /** The counted nodes lie in chain order before the place of the view, and every node of the
      snapshot before it has been counted or seen dead. */
  ghost predicate PlacedAt(c: seq<nat>, snap: seq<nat>, found: seq<nat>, over: set<nat>, v: View) {
    match v
    case Off => true
    case On(curr, i) =>
      && |found| == i && InChainOrder(c, found) && Covered(c, snap, over, curr)
      && forall j :: 0 <= j < |found| && curr != TAIL ==> StrictlyBefore(c, found[j], curr)
    case Past(curr, i) =>
      && |found| == i && InChainOrder(c, found) && Covered(c, snap, over, curr)
      && (curr in snap ==> curr in over)
      && forall j :: 0 <= j < |found| ==> Before(c, found[j], curr)
  }

  ghost predicate AllLive<T>(run: seq<State<T>>, since: nat, i: nat, found: seq<nat>) {
    forall j :: 0 <= j < |found| ==> LiveOnce(run, since, i, found[j])
  }

  /** Insert has chosen the node it counted last. */
  predicate Chosen<T>(pc: PC<T>, found: seq<nat>) {
    pc.InsertNext? || pc.InsertStore? || pc.InsertCas? ==> found != [] && found[|found| - 1] == pc.pred
  }

  ghost predicate Counted<T>(run: seq<State<T>>, i: nat, th: Thread<T>, found: seq<nat>) {
    i < |run| &&
    (!ViewOf(th.pc).Off? ==>
      && PlacedAt(Chain(run[i], th.gen), th.snap, found, Dealt(run, i, th, found), ViewOf(th.pc))
      && AllLive(run, th.since, i, found) && Chosen(th.pc, found))
  }

  // ---------- Moving the place ----------

  lemma PlaceGrows(c: seq<nat>, c': seq<nat>, snap: seq<nat>, found: seq<nat>, over: set<nat>, over': set<nat>, v: View)
    requires SameOrder(c, c') && over <= over' && PlacedAt(c, snap, found, over, v)
    ensures PlacedAt(c', snap, found, over', v)
  {
    if !v.Off? {
      InOrderGrows(c, c', found);
      CoveredGrows(c, c', snap, over, over', v.curr);
      forall j | 0 <= j < |found| && (v.On? ==> v.curr != TAIL)
        ensures Before(c', found[j], v.curr) && (v.On? ==> StrictlyBefore(c', found[j], v.curr))
      {
        assert Before(c, found[j], v.curr);
      }
    }
  }

  /** At the first node everything lies ahead. */
  lemma FirstCovers<T>(s: State<T>, over: set<nat>)
    requires ChainsOk(s.mem, s.home, s.chains)
    ensures var c := s.chains[Last(s)]; Covered(c, c, over, Next(s.mem, HEAD))
  {
    assert ChainOk(s.mem, s.home, Last(s), s.chains[Last(s)]);
  }

  /** Past a dead node. */
  lemma PlaceDead(c: seq<nat>, snap: seq<nat>, found: seq<nat>, over: set<nat>, curr: nat, i: nat)
    requires PlacedAt(c, snap, found, over, On(curr, i)) && curr != TAIL
    requires curr in snap ==> curr in over
    ensures PlacedAt(c, snap, found, over, Past(curr, i))
  {
  }

  /** Past a live one. */
  lemma PlaceLive(c: seq<nat>, snap: seq<nat>, found: seq<nat>, over: set<nat>, curr: nat, i: nat)
    requires PlacedAt(c, snap, found, over, On(curr, i)) && curr != TAIL && curr in c
    requires curr in snap ==> curr in over
    ensures PlacedAt(c, snap, found + [curr], over, Past(curr, i + 1))
  {
    var f := found + [curr];
    forall j, k | 0 <= j < k < |f|
      ensures StrictlyBefore(c, f[j], f[k])
    {
      assert k < |found| ==> StrictlyBefore(c, found[j], found[k]);
    }
  }

  /** On to the next node. */
  lemma PlaceNext(c: seq<nat>, k: nat, snap: seq<nat>, found: seq<nat>, over: set<nat>, i: nat)
    requires NoDup(c) && k < |c| && PlacedAt(c, snap, found, over, Past(c[k], i))
    requires forall n :: n in c ==> n > TAIL
    ensures PlacedAt(c, snap, found, over, On(At(c, k + 1), i))
  {
    CoveredNext(c, k, snap, over);
    if k + 1 < |c| {
      IndexUnique(c, k);
      IndexUnique(c, k + 1);
    }
  }

  // ---------- Steps of a run ----------

  lemma ViewNode<T>(s: State<T>, th: Thread<T>)
    requires ChainsOk(s.mem, s.home, s.chains) && PlaceOk(s, th)
    ensures var v := ViewOf(th.pc);
            && (v.On? ==> AtCurr(s, th, v.curr))
            && (v.Past? ==> AtNode(s, th, v.curr) && th.gen < |s.chains| && v.curr in s.chains[th.gen])
  {
  }

  /** The walk of the thread goes on in the same snapshot. */
  lemma SameWalk<T>(s: State<T>, th: Thread<T>)
    requires !LoadsHead(th.pc)
    ensures var th' := Stepped(s, th);
            th'.since == th.since && th'.snap == th.snap && th'.op == th.op && th'.gen == th.gen
  {
  }

  /** A node has just been passed: it is dead, or counted. */
  lemma PassedNode<T>(run: seq<State<T>>, i: nat, th: Thread<T>, th': Thread<T>, found: seq<nat>, curr: nat)
    requires i + 1 < |run| && th.since < i && th'.since == th.since && th'.snap == th.snap
    requires Cell(run[i].mem, curr).Ref? ==> curr in found
    ensures curr in th.snap ==> curr in Dealt(run, i + 1, th', found)
    ensures Cell(run[i].mem, curr).Ref? ==> LiveOnce(run, th.since, i + 1, curr)
  {
    assert During(th.since, i, i + 1);
  }

  lemma LiveLater<T>(run: seq<State<T>>, since: nat, i: nat, found: seq<nat>)
    requires i + 1 < |run| && AllLive(run, since, i, found)
    ensures AllLive(run, since, i + 1, found)
  {
    forall j | 0 <= j < |found|
      ensures LiveOnce(run, since, i + 1, found[j])
    {
      LaterOnce(run, since, i, found[j]);
    }
  }

  /** What has been counted when the node the loop is on has been passed. */
  lemma PassView<T>(run: seq<State<T>>, i: nat, th: Thread<T>, th': Thread<T>, c: seq<nat>, found: seq<nat>,
                    v: View, v': View)
    returns (found': seq<nat>)
    requires i + 1 < |run| && th.since < i && th'.since == th.since && th'.snap == th.snap
    requires PlacedAt(c, th.snap, found, Dealt(run, i, th, found), v) && AllLive(run, th.since, i, found)
    requires v.On? && v.curr != TAIL && v.curr in c
    requires if Cell(run[i].mem, v.curr).Nil? then v' == Past(v.curr, v.i) else v' == Past(v.curr, v.i + 1)
    ensures PlacedAt(c, th.snap, found', Dealt(run, i + 1, th', found'), v') && AllLive(run, th.since, i + 1, found')
    ensures Cell(run[i].mem, v.curr).Ref? ==> found' != [] && found'[|found'| - 1] == v.curr
  {
    var curr := v.curr;
    found' := if Cell(run[i].mem, curr).Nil? then found else found + [curr];
    var over := Dealt(run, i + 1, th', found');
    DealtGrows(run, i, th, th', found, found');
    PassedNode(run, i, th, th', found', curr);
    LiveLater(run, th.since, i, found);
    PlaceMore(c, th.snap, found, Dealt(run, i, th, found), over, v);
    if Cell(run[i].mem, curr).Nil? {
      PlaceDead(c, th.snap, found, over, curr, v.i);
    } else {
      PlaceLive(c, th.snap, found, over, curr, v.i);
    }
  }

  lemma PlaceMore(c: seq<nat>, snap: seq<nat>, found: seq<nat>, over: set<nat>, over': set<nat>, v: View)
    requires over <= over' && PlacedAt(c, snap, found, over, v)
    ensures PlacedAt(c, snap, found, over', v)
  {
  }

  /** A step of a loop that is counting, within one walk. */
  lemma WithinWalk<T>(run: seq<State<T>>, i: nat, th: Thread<T>, found: seq<nat>) returns (found': seq<nat>)
    requires i + 1 < |run| && ChainsOk(run[i].mem, run[i].home, run[i].chains) && PlaceOk(run[i], th)
    requires Counted(run, i, th, found) && th.since < i && !LoadsHead(th.pc)
    requires !ViewOf(th.pc).Off? && !ViewOf(Turn(run[i].mem, th.pc).0).Off?
    ensures var th' := Stepped(run[i], th);
            && PlacedAt(Chain(run[i], th.gen), th.snap, found', Dealt(run, i + 1, th', found'), ViewOf(th'.pc))
            && AllLive(run, th.since, i + 1, found') && Chosen(th'.pc, found')
  {
    var s, th' := run[i], Stepped(run[i], th);
    var v, v' := ViewOf(th.pc), ViewOf(th'.pc);
    var c := Chain(s, th.gen);
    TurnView(s, th);
    SameWalk(s, th);
    ViewNode(s, th);
    found' := found;
    var over := Dealt(run, i + 1, th', found);
    DealtGrows(run, i, th, th', found, found);
    LiveLater(run, th.since, i, found);
    PlaceMore(c, th.snap, found, Dealt(run, i, th, found), over, v);
    if v.On? && v' != v {
      StillGoing(s, th);
      found' := PassView(run, i, th, th', c, found, v, v');
    } else if v' != v {
      AdvanceView(s, th, found, over);
    }
    StillChosen(s, th, found, found');
  }

  /** A choice stays, and a new one is the node counted last. */
  lemma StillChosen<T>(s: State<T>, th: Thread<T>, found: seq<nat>, found': seq<nat>)
    requires !LoadsHead(th.pc) && !ViewOf(th.pc).Off? && Chosen(th.pc, found)
    requires ViewOf(th.pc).Past? ==> found' == found
    requires ViewOf(th.pc).On? && ViewOf(Turn(s.mem, th.pc).0).Past? && Cell(s.mem, ViewOf(th.pc).curr).Ref? ==>
               found' != [] && found'[|found'| - 1] == ViewOf(th.pc).curr
    ensures Chosen(Turn(s.mem, th.pc).0, found')
  {
  }

  lemma AdvanceView<T>(s: State<T>, th: Thread<T>, found: seq<nat>, over: set<nat>)
    requires ChainsOk(s.mem, s.home, s.chains) && PlaceOk(s, th) && ViewOf(th.pc).Past?
    requires PlacedAt(Chain(s, th.gen), th.snap, found, over, ViewOf(th.pc))
    ensures PlacedAt(Chain(s, th.gen), th.snap, found, over, On(Next(s.mem, ViewOf(th.pc).curr), ViewOf(th.pc).i))
  {
    ViewNode(s, th);
    var c, v := s.chains[th.gen], ViewOf(th.pc);
    var k := IndexOf(c, v.curr);
    NextIs(s.mem, s.home, th.gen, c, k);
    PlaceNext(c, k, th.snap, found, over, v.i);
  }

  /** A loop that has come to the tail sentinel looks at nothing more. */
  lemma StillGoing<T>(s: State<T>, th: Thread<T>)
    requires ViewOf(th.pc).On? && !ViewOf(Turn(s.mem, th.pc).0).Off? && ViewOf(Turn(s.mem, th.pc).0) != ViewOf(th.pc)
    ensures ViewOf(th.pc).curr != TAIL
  {
  }

  lemma StartView<T>(run: seq<State<T>>, i: nat, th: Thread<T>)
    requires i + 1 < |run| && ChainsOk(run[i].mem, run[i].home, run[i].chains) && PlaceOk(run[i], th)
    requires LoadsHead(th.pc)
    ensures var th' := Stepped(run[i], th);
            PlacedAt(Chain(run[i], th'.gen), th'.snap, [], Dealt(run, i + 1, th', []), ViewOf(th'.pc))
  {
    var s, th' := run[i], Stepped(run[i], th);
    TurnView(s, th);
    FirstCovers(s, Dealt(run, i + 1, th', []));
  }

  lemma OwnCounted<T>(run: seq<State<T>>, i: nat, th: Thread<T>, found: seq<nat>) returns (found': seq<nat>)
    requires i + 1 < |run| && ChainsOk(run[i].mem, run[i].home, run[i].chains) && PlaceOk(run[i], th)
    requires Counted(run, i, th, found) && Snapped(run, i, th) && Ordered(run[i], run[i + 1])
    requires !th.pc.Idle? && !th.pc.Done?
    ensures Counted(run, i + 1, Stepped(run[i], th), found')
  {
    var s, th' := run[i], Stepped(run[i], th);
    found' := [];
    if !ViewOf(th'.pc).Off? {
      if LoadsHead(th.pc) {
        StartView(run, i, th);
        HeadChooses(s.mem, th.pc);
      } else {
        TurnView(s, th);
        found' := WithinWalk(run, i, th, found);
      }
      KeptView(run, i, th', found');
    }
  }

  /** No node is chosen before one has been looked at. */
  lemma HeadChooses<T>(m: Mem<T>, pc: PC<T>)
    requires LoadsHead(pc)
    ensures var pc' := Turn(m, pc).0; !pc'.InsertNext? && !pc'.InsertStore? && !pc'.InsertCas?
  {
  }

  lemma KeptView<T>(run: seq<State<T>>, i: nat, th: Thread<T>, found: seq<nat>)
    requires i + 1 < |run| && Ordered(run[i], run[i + 1])
    requires PlacedAt(Chain(run[i], th.gen), th.snap, found, Dealt(run, i + 1, th, found), ViewOf(th.pc))
    ensures PlacedAt(Chain(run[i + 1], th.gen), th.snap, found, Dealt(run, i + 1, th, found), ViewOf(th.pc))
  {
    var over := Dealt(run, i + 1, th, found);
    if th.gen < |run[i].chains| {
      PlaceGrows(run[i].chains[th.gen], run[i + 1].chains[th.gen], th.snap, found, over, over, ViewOf(th.pc));
    }
  }

  lemma OtherCounted<T>(run: seq<State<T>>, i: nat, th: Thread<T>, found: seq<nat>)
    requires i + 1 < |run| && Counted(run, i, th, found) && Ordered(run[i], run[i + 1])
    ensures Counted(run, i + 1, th, found)
  {
    if !ViewOf(th.pc).Off? {
      DealtGrows(run, i, th, th, found, found);
      LiveLater(run, th.since, i, found);
      PlaceMore(Chain(run[i], th.gen), th.snap, found, Dealt(run, i, th, found), Dealt(run, i + 1, th, found),
        ViewOf(th.pc));
      KeptView(run, i, th, found);
    }
  }

  lemma CallCounted<T>(run: seq<State<T>>, i: nat, m: Mem<T>, th: Thread<T>)
    requires i < |run| && (th.pc.Idle? || th.pc == CallPC(m, th.op))
    ensures Counted(run, i, th, [])
  {
  }

  lemma NextCounted<T>(run: seq<State<T>>, l: Label<T>, i: nat, t: nat, found: seq<nat>) returns (found': seq<nat>)
    requires i + 1 < |run| && Shape(run[i]) && Can(run[i], l) && run[i + 1] == Do(run[i], l)
    requires t in run[i].threads && t in run[i + 1].threads
    requires Counted(run, i, run[i].threads[t], found) && Snapped(run, i, run[i].threads[t])
    ensures Counted(run, i + 1, run[i + 1].threads[t], found')
  {
    DoOrdered(run[i], l);
    found' := found;
    if t != l.tid {
      OtherCounted(run, i, run[i].threads[t], found);
    } else if l.Move? {
      found' := OwnCounted(run, i, run[i].threads[t], found);
    } else {
      CallCounted(run, i + 1, run[i].mem, run[i + 1].threads[t]);
      found' := [];
    }
  }

  lemma StepCounted<T>(run: seq<State<T>>, labels: seq<Label<T>>, i: nat, t: nat, found: seq<nat>)
    returns (found': seq<nat>)
    requires IsRun(run, labels) && i < |labels| && t in run[i].threads && t in run[i + 1].threads
    requires Counted(run, i, run[i].threads[t], found)
    ensures Counted(run, i + 1, run[i + 1].threads[t], found')
  {
    var s, l := run[i], labels[i];
    assert Can(s, l) && run[i + 1] == Do(s, l);
    assert Snapped(run, i, s.threads[t]) by { RunSnaps(run, labels, i, t); }
    assert Shape(s) by { RunShape(run, labels, i); }
    found' := NextCounted(run, l, i, t, found);
  }

  lemma {:induction false} RunCounted<T>(run: seq<State<T>>, labels: seq<Label<T>>, i: nat, t: nat)
    returns (found: seq<nat>)
    requires IsRun(run, labels) && i < |run| && t in run[i].threads
    ensures Counted(run, i, run[i].threads[t], found)
  {
    found := [];
    if i > 0 {
      var s, l := run[i - 1], labels[i - 1];
      assert Can(s, l) && run[i] == Do(s, l);
      SameThreads(s, l);
      found := RunCounted(run, labels, i - 1, t);
      found := StepCounted(run, labels, i - 1, t, found);
    }
  }

  // ---------- The last live node ----------

  /** What RemoveLast need not come back to: nodes up to the one it remembers, and dead ones. */
  ghost function Rest<T>(run: seq<State<T>>, i: nat, th: Thread<T>, c: seq<nat>, last: nat): set<nat> {
    set n | n in th.snap && (Before(c, n, last) || DeadOnce(run, th.since, i, n))
  }

  predicate Remembering<T>(pc: PC<T>) {
    (pc.WalkTest? || pc.WalkAdvance? || pc.WalkCas?) && pc.w.LastW?
  }

  ghost predicate LastOk<T>(run: seq<State<T>>, i: nat, th: Thread<T>, c: seq<nat>) {
    Remembering(th.pc) ==>
      var over := Rest(run, i, th, c, th.pc.w.last);
      if th.pc.WalkCas? then Covered(c, th.snap, over, TAIL)
      else Covered(c, th.snap, over, th.pc.curr) && (th.pc.WalkAdvance? && th.pc.curr in th.snap ==> th.pc.curr in over)
  }

  /** Time passes, and chains grow. */
  lemma LastLater<T>(run: seq<State<T>>, i: nat, th: Thread<T>, c: seq<nat>, c': seq<nat>)
    requires i + 1 < |run| && SameOrder(c, c') && LastOk(run, i, th, c)
    ensures LastOk(run, i + 1, th, c')
  {
    if Remembering(th.pc) {
      RestGrows(run, i, th, c, c', th.pc.w.last);
      CoveredGrows(c, c', th.snap, Rest(run, i, th, c, th.pc.w.last), Rest(run, i + 1, th, c', th.pc.w.last),
                   if th.pc.WalkCas? then TAIL else th.pc.curr);
    }
  }

  lemma RestGrows<T>(run: seq<State<T>>, i: nat, th: Thread<T>, c: seq<nat>, c': seq<nat>, last: nat)
    requires i + 1 < |run| && SameOrder(c, c')
    ensures Rest(run, i, th, c, last) <= Rest(run, i + 1, th, c', last)
  {
    forall n | n in Rest(run, i, th, c, last)
      ensures n in Rest(run, i + 1, th, c', last)
    {
      LaterOnce(run, th.since, i, n);
    }
  }

  /** RemoveLast looks at a node: a live one is the last so far, and it has seen a dead one dead. */
  lemma LastTest<T>(run: seq<State<T>>, i: nat, th: Thread<T>, c: seq<nat>)
    requires i + 1 < |run| && th.since < i && LastOk(run, i, th, c)
    requires th.pc.WalkTest? && th.pc.w.LastW? && th.pc.curr != NIL && (th.pc.curr == TAIL || th.pc.curr in c)
    requires !LoadsHead(th.pc)
    ensures LastOk(run, i + 1, Stepped(run[i], th), c)
  {
    var curr, th' := th.pc.curr, Stepped(run[i], th);
    RestGrows(run, i, th, c, c, th.pc.w.last);
    assert Remembering(th.pc);
    if Remembering(th'.pc) {
      forall n | n in th'.snap
        ensures n in c && (n in Rest(run, i + 1, th', c, th'.pc.w.last) || (curr != TAIL && Before(c, curr, n)))
      {
        if n in Rest(run, i, th, c, th.pc.w.last) {
          LaterOnce(run, th.since, i, n);
          assert Before(c, n, curr) || curr == TAIL || Before(c, curr, n);
        }
      }
      if curr != TAIL {
        assert Cell(run[i].mem, curr).Nil? ==> During(th.since, i, i + 1);
      }
    }
  }

  lemma LastFirst<T>(run: seq<State<T>>, i: nat, th: Thread<T>, c: seq<nat>)
    requires i < |run| && th.pc.WalkTest? && th.pc.w.LastW?
    requires Covered(c, th.snap, Rest(run, i, th, c, th.pc.w.last), th.pc.curr)
    ensures LastOk(run, i, th, c)
  {
  }

  lemma LastStart<T>(run: seq<State<T>>, i: nat, th: Thread<T>)
    requires i + 1 < |run| && ChainsOk(run[i].mem, run[i].home, run[i].chains) && th.pc.WalkHead? && th.pc.w.LastW?
    ensures LastOk(run, i + 1, Stepped(run[i], th), Chain(run[i], Stepped(run[i], th).gen))
  {
    var s, th' := run[i], Stepped(run[i], th);
    var c := s.chains[Last(s)];
    assert th'.pc == WalkTest(th.pc.w, Next(s.mem, HEAD)) && th'.snap == c && Chain(s, th'.gen) == c;
    FirstCovers(s, Rest(run, i + 1, th', c, th'.pc.w.last));
    LastFirst(run, i + 1, th', c);
  }

  lemma LastAdvance<T>(run: seq<State<T>>, i: nat, th: Thread<T>)
    requires i + 1 < |run| && ChainsOk(run[i].mem, run[i].home, run[i].chains) && PlaceOk(run[i], th)
    requires th.pc.WalkAdvance? && th.pc.w.LastW? && LastOk(run, i, th, Chain(run[i], th.gen))
    ensures LastOk(run, i + 1, Stepped(run[i], th), Chain(run[i], th.gen))
  {
    var c, last := run[i].chains[th.gen], th.pc.w.last;
    var k := IndexOf(c, th.pc.curr);
    NextIs(run[i].mem, run[i].home, th.gen, c, k);
    CoveredNext(c, k, th.snap, Rest(run, i, th, c, last));
    RestGrows(run, i, th, c, c, last);
  }

  /** Only a call of RemoveLast starts a walk that remembers, and its CAS ends it. */
  lemma Remembers<T>(m: Mem<T>, pc: PC<T>)
    requires Remembering(Turn(m, pc).0) && (pc.WalkReload? ==> pc.w.SetW?)
    ensures Walking(pc) && pc.w.LastW? && (pc.WalkHead? || pc.WalkTest? || pc.WalkAdvance?)
  {
    if Walking(pc) {
      match pc.w
      case LastW(_, _) =>
      case FuncW(_, _) =>
      case _ =>
    }
  }

  lemma OwnLast<T>(run: seq<State<T>>, i: nat, th: Thread<T>)
    requires i + 1 < |run| && ChainsOk(run[i].mem, run[i].home, run[i].chains) && PlaceOk(run[i], th)
    requires Snapped(run, i, th) && LastOk(run, i, th, Chain(run[i], th.gen))
    ensures LastOk(run, i + 1, Stepped(run[i], th), Chain(run[i], Stepped(run[i], th).gen))
  {
    if Remembering(Turn(run[i].mem, th.pc).0) {
      Remembers(run[i].mem, th.pc);
      if th.pc.WalkHead? {
        LastStart(run, i, th);
      } else if th.pc.WalkAdvance? {
        LastAdvance(run, i, th);
      } else {
        WalkNotNil(run[i], th);
        LastTest(run, i, th, Chain(run[i], th.gen));
      }
    }
  }

  lemma NextLast<T>(run: seq<State<T>>, l: Label<T>, i: nat, t: nat)
    requires i + 1 < |run| && Shape(run[i]) && Can(run[i], l) && run[i + 1] == Do(run[i], l)
    requires t in run[i].threads && t in run[i + 1].threads && Snapped(run, i, run[i].threads[t])
    requires LastOk(run, i, run[i].threads[t], Chain(run[i], run[i].threads[t].gen))
    ensures LastOk(run, i + 1, run[i + 1].threads[t], Chain(run[i + 1], run[i + 1].threads[t].gen))
  {
    var th, th' := run[i].threads[t], run[i + 1].threads[t];
    DoOrdered(run[i], l);
    if t != l.tid {
      LastGrows(run, i, th);
    } else if l.Move? {
      OwnLast(run, i, th);
      LastGrown(run, i + 1, th', run[i]);
    } else {
      NotRemembering(run[i].mem, th');
    }
  }

  lemma NotRemembering<T>(m: Mem<T>, th: Thread<T>)
    requires th.pc.Idle? || th.pc == CallPC(m, th.op)
    ensures !Remembering(th.pc)
  {
  }

  lemma {:induction false} RunLast<T>(run: seq<State<T>>, labels: seq<Label<T>>, i: nat, t: nat)
    requires IsRun(run, labels) && i < |run| && t in run[i].threads
    ensures LastOk(run, i, run[i].threads[t], Chain(run[i], run[i].threads[t].gen))
  {
    if i > 0 {
      var s, l := run[i - 1], labels[i - 1];
      assert Can(s, l) && run[i] == Do(s, l);
      SameThreads(s, l);
      RunLast(run, labels, i - 1, t);
      assert Snapped(run, i - 1, s.threads[t]) by { RunSnaps(run, labels, i - 1, t); }
      assert Shape(s) by { RunShape(run, labels, i - 1); }
      NextLast(run, l, i - 1, t);
    }
  }

  /** The chain the thread is on grows. */
  lemma LastGrown<T>(run: seq<State<T>>, i: nat, th: Thread<T>, s: State<T>)
    requires i < |run| && Ordered(s, run[i]) && LastOk(run, i, th, Chain(s, th.gen))
    ensures LastOk(run, i, th, Chain(run[i], th.gen))
  {
    if Remembering(th.pc) && th.gen < |s.chains| {
      var c, c', last := s.chains[th.gen], run[i].chains[th.gen], th.pc.w.last;
      CoveredGrows(c, c', th.snap, Rest(run, i, th, c, last), Rest(run, i, th, c', last),
                   if th.pc.WalkCas? then TAIL else th.pc.curr);
    }
  }

  lemma LastGrows<T>(run: seq<State<T>>, i: nat, th: Thread<T>)
    requires i + 1 < |run| && Ordered(run[i], run[i + 1])
    requires LastOk(run, i, th, Chain(run[i], th.gen))
    ensures LastOk(run, i + 1, th, Chain(run[i + 1], th.gen))
  {
    var c := Chain(run[i], th.gen);
    assert SameOrder(c, c);
    LastLater(run, i, th, c, c);
    LastGrown(run, i + 1, th, run[i]);
  }
}
