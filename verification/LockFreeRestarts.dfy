/**
 When the operations of the lock-free list start over, and how often they look at a node.
 */
module LockFreeRestarts {
  import opened LockFreeMachine
  import opened LockFreeShape
  import opened LockFreeReach
  import opened LockFreePointers
  import opened LockFreeAccounts
  import opened LockFreeWalk
  import opened LockFreeMisses

  // ---------- Starting over ----------

  /** Operations that resolve their place anew when they have lost a race. */
  predicate StartsOver<T>(op: Op<T>) {
    op.Append? || op.Insert? || op.Clear? || op.RemoveAt? || op.RemoveLast?
  }

  /** Operations that walk the chain once. */
  predicate WalksOnce<T>(op: Op<T>) {
    op.RemoveFirst? || op.Remove? || op.RemoveFunc? || op.ToSlice?
  }

  /** Step k is thread t's own, and it is a failed CAS; or it loads head.next. */
  ghost predicate Loses<T>(run: seq<State<T>>, labels: seq<Label<T>>, k: nat, t: nat) {
    && k < |labels| && k < |run| && labels[k] == Move(t) && t in run[k].threads
    && Turn(run[k].mem, run[k].threads[t].pc).1.Miss?
  }

  ghost predicate Loads<T>(run: seq<State<T>>, labels: seq<Label<T>>, k: nat, t: nat) {
    && k < |labels| && k < |run| && labels[k] == Move(t) && t in run[k].threads
    && LoadsHead(run[k].threads[t].pc)
  }

  lemma LostTurn<T>(m: Mem<T>, op: Op<T>, pc: PC<T>)
    requires OpFits(op, pc) && StartsOver(op) && Turn(m, pc).1.Miss?
    ensures !UsesGen(Turn(m, pc).0)
  {
    if Walking(pc) {
      match pc.w
      case RemoveAtW(_, _) =>
      case LastW(_, _) =>
      case _ =>
    }
  }

  lemma KeepsSince<T>(s: State<T>, l: Label<T>, t: nat)
    requires Can(s, l) && t in s.threads && t in Do(s, l).threads && UsesGen(Do(s, l).threads[t].pc)
    requires !(l == Move(t) && LoadsHead(s.threads[t].pc))
    ensures UsesGen(s.threads[t].pc)
    ensures var th, th' := s.threads[t], Do(s, l).threads[t];
            && th'.since == th.since && th'.op == th.op && th'.call == th.call && th'.snap == th.snap &&
               th'.gen == th.gen
            && if l == Move(t) then th' == Stepped(s, th) else th' == th
  {
    if t == l.tid && l.Begin? {
      CallLoads(s.mem, l.op);
    }
  }

  lemma CallLoads<T>(m: Mem<T>, op: Op<T>)
    ensures !UsesGen(CallPC(m, op))
  {
  }

  /** In these operations no CAS has failed since head.next was last loaded: one that loses a
      race resolves its place anew from the head. */
  lemma {:induction false} FreshWalk<T>(run: seq<State<T>>, labels: seq<Label<T>>, i: nat, t: nat)
    requires IsRun(run, labels) && i < |run| && t in run[i].threads
    requires UsesGen(run[i].threads[t].pc) && StartsOver(run[i].threads[t].op)
    ensures run[i].threads[t].since < i
    ensures forall k: nat :: run[i].threads[t].since < k < i ==> !Loses(run, labels, k, t)
  {
    RunSnaps(run, labels, i, t);
    if i > 0 {
      var s, l := run[i - 1], labels[i - 1];
      assert Can(s, l) && run[i] == Do(s, l);
      SameThreads(s, l);
      var th := s.threads[t];
      if l == Move(t) && LoadsHead(th.pc) {
        LoadIsLast(run, labels, i, t);
      } else {
        KeepsSince(s, l, t);
        FreshWalk(run, labels, i - 1, t);
        assert OpFits(th.op, th.pc) by { FitsHere(run, labels, i - 1, t); }
        if Loses(run, labels, i - 1, t) {
          LostTurn(s.mem, th.op, th.pc);
        }
      }
    }
  }

  lemma LoadIsLast<T>(run: seq<State<T>>, labels: seq<Label<T>>, i: nat, t: nat)
    requires IsRun(run, labels) && 0 < i < |run| && t in run[i - 1].threads && t in run[i].threads
    requires Loads(run, labels, i - 1, t)
    ensures run[i].threads[t].since == i - 1
  {
    RunSnaps(run, labels, i - 1, t);
    assert |run[i - 1].chains| > 0 by { RunShape(run, labels, i - 1); }
    assert Can(run[i - 1], labels[i - 1]);
  }

  lemma FitsHere<T>(run: seq<State<T>>, labels: seq<Label<T>>, i: nat, t: nat)
    requires IsRun(run, labels) && i < |run| && t in run[i].threads
    ensures OpFits(run[i].threads[t].op, run[i].threads[t].pc)
  {
    var th := run[i].threads[t];
    assert OwnOk(run[i], t, th) && PlaceOk(run[i], th) by { RunShape(run, labels, i); }
    FitsPC(run[i], t, th);
  }

  lemma OnceTurn<T>(m: Mem<T>, op: Op<T>, pc: PC<T>)
    requires OpFits(op, pc) && WalksOnce(op) && !pc.Idle? && !pc.Done?
    requires pc.WalkReload? ==> pc.w.SetW?
    ensures !LoadsHead(Turn(m, pc).0)
  {
    match pc.w
    case FuncW(_, _) =>
    case SliceW(_, _, _) =>
    case _ =>
  }

  /** The only load of head.next that a call has made is the last one recorded. */
  ghost predicate LoadedOnce<T>(run: seq<State<T>>, labels: seq<Label<T>>, i: nat, t: nat, th: Thread<T>) {
    forall k: nat :: th.call < k < i && Loads(run, labels, k, t) ==> k == th.since && !LoadsHead(th.pc)
  }

  lemma OnceMove<T>(run: seq<State<T>>, labels: seq<Label<T>>, i: nat, t: nat)
    requires IsRun(run, labels) && i < |labels| && labels[i] == Move(t) && t in run[i].threads &&
             t in run[i + 1].threads
    requires Can(run[i], Move(t)) && run[i + 1] == DoMove(run[i], t)
    requires WalksOnce(run[i].threads[t].op) && LoadedOnce(run, labels, i, t, run[i].threads[t])
    ensures LoadedOnce(run, labels, i + 1, t, run[i + 1].threads[t])
  {
    var th := run[i].threads[t];
    assert OpFits(th.op, th.pc) && (th.pc.WalkReload? ==> th.pc.w.SetW?) by {
      FitsHere(run, labels, i, t);
      assert PlaceOk(run[i], th) by { RunShape(run, labels, i); }
    }
    OnceTurn(run[i].mem, th.op, th.pc);
    if LoadsHead(th.pc) {
      LoadIsLast(run, labels, i + 1, t);
    }
  }

  lemma OnceOther<T>(run: seq<State<T>>, labels: seq<Label<T>>, i: nat, t: nat, th: Thread<T>)
    requires i < |labels| && labels[i] != Move(t) && LoadedOnce(run, labels, i, t, th)
    ensures LoadedOnce(run, labels, i + 1, t, th)
  {
  }

  /** A step that is not the thread's own, or begins its call. */
  lemma OnceElse<T>(run: seq<State<T>>, labels: seq<Label<T>>, i: nat, t: nat)
    requires IsRun(run, labels) && i < |labels| && labels[i] != Move(t) && t in run[i].threads &&
             t in run[i + 1].threads
    requires !run[i + 1].threads[t].pc.Idle?
    ensures run[i + 1].threads[t] == run[i].threads[t] || run[i + 1].threads[t].call == i
  {
    RunSnaps(run, labels, i, t);
    assert Can(run[i], labels[i]) && run[i + 1] == Do(run[i], labels[i]);
  }

  lemma OnceStep<T>(run: seq<State<T>>, labels: seq<Label<T>>, i: nat, t: nat)
    requires IsRun(run, labels) && i < |labels| && t in run[i].threads && t in run[i + 1].threads
    requires !run[i + 1].threads[t].pc.Idle? && WalksOnce(run[i + 1].threads[t].op)
    requires !run[i].threads[t].pc.Idle? && WalksOnce(run[i].threads[t].op) ==>
               LoadedOnce(run, labels, i, t, run[i].threads[t])
    ensures LoadedOnce(run, labels, i + 1, t, run[i + 1].threads[t])
  {
    if labels[i] == Move(t) {
      assert Can(run[i], labels[i]) && run[i + 1] == DoMove(run[i], t);
      OnceMove(run, labels, i, t);
    } else {
      OnceElse(run, labels, i, t);
      if run[i + 1].threads[t] == run[i].threads[t] {
        OnceOther(run, labels, i, t, run[i].threads[t]);
      }
    }
  }

  /** These operations load head.next once, and never start over. */
  lemma {:induction false} SingleWalk<T>(run: seq<State<T>>, labels: seq<Label<T>>, i: nat, t: nat)
    requires IsRun(run, labels) && i < |run| && t in run[i].threads
    requires !run[i].threads[t].pc.Idle? && WalksOnce(run[i].threads[t].op)
    ensures LoadedOnce(run, labels, i, t, run[i].threads[t])
  {
    if i > 0 {
      ThreadBefore(run, labels, i, t);
      if !run[i - 1].threads[t].pc.Idle? && WalksOnce(run[i - 1].threads[t].op) {
        SingleWalk(run, labels, i - 1, t);
      }
      OnceStep(run, labels, i - 1, t);
    }
  }

  lemma ThreadBefore<T>(run: seq<State<T>>, labels: seq<Label<T>>, i: nat, t: nat)
    requires IsRun(run, labels) && 0 < i < |run| && t in run[i].threads
    ensures t in run[i - 1].threads
  {
    assert Can(run[i - 1], labels[i - 1]) && run[i] == Do(run[i - 1], labels[i - 1]);
    SameThreads(run[i - 1], labels[i - 1]);
  }

  /** Step j is Set's look at a node that it lost a race on and that is dead now. */
  ghost predicate FindsDead<T>(run: seq<State<T>>, labels: seq<Label<T>>, j: nat, t: nat) {
    && j < |labels| && j < |run| && labels[j] == Move(t) && t in run[j].threads
    && run[j].threads[t].pc.WalkReload? && Cell(run[j].mem, run[j].threads[t].pc.curr).Nil?
  }

  lemma SetTurn<T>(m: Mem<T>, op: Op<T>, pc: PC<T>)
    requires OpFits(op, pc) && op.SetAt? && !pc.Idle? && !pc.Done? && LoadsHead(Turn(m, pc).0)
    ensures pc.WalkReload? && Cell(m, pc.curr).Nil?
  {
  }

  /** A thread at the head of a loop that did not step there is another's, or its call is new. */
  lemma NewCall<T>(s: State<T>, l: Label<T>, t: nat)
    requires Can(s, l) && l != Move(t) && t in s.threads && t in Do(s, l).threads && LoadsHead(Do(s, l).threads[t].pc)
    ensures Do(s, l).threads[t] == s.threads[t] || Do(s, l).threads[t].call == s.clock
  {
  }

  lemma SetBefore<T>(run: seq<State<T>>, labels: seq<Label<T>>, i: nat, t: nat)
    requires IsRun(run, labels) && 0 < i < |run| && t in run[i].threads && run[i].threads[t].op.SetAt?
    requires LoadsHead(run[i].threads[t].pc)
    ensures t in run[i - 1].threads
    ensures || FindsDead(run, labels, i - 1, t)
            || run[i].threads[t].call == i - 1
            || (run[i].threads[t] == run[i - 1].threads[t] && labels[i - 1] != Move(t))
  {
    var s, l := run[i - 1], labels[i - 1];
    assert Can(s, l) && run[i] == Do(s, l);
    SameThreads(s, l);
    if l == Move(t) {
      FitsHere(run, labels, i - 1, t);
      SetTurn(s.mem, s.threads[t].op, s.threads[t].pc);
    } else {
      RunSnaps(run, labels, i - 1, t);
      NewCall(s, l, t);
    }
  }

  lemma {:induction false} SwitchPoint(at: seq<bool>, lo: nat, hi: nat) returns (j: nat)
    requires lo < hi < |at| && !at[lo] && at[hi]
    ensures lo <= j < hi && !at[j] && at[j + 1]
  {
    j := hi - 1;
    if at[hi - 1] {
      j := SwitchPoint(at, lo, hi - 1);
    }
  }

  lemma HeadTurn<T>(m: Mem<T>, pc: PC<T>)
    requires LoadsHead(pc)
    ensures !LoadsHead(Turn(m, pc).0)
  {
  }

  lemma AfterLoad<T>(run: seq<State<T>>, labels: seq<Label<T>>, k: nat, t: nat)
    requires IsRun(run, labels) && Loads(run, labels, k, t)
    ensures k + 1 < |run| && t in run[k + 1].threads && !LoadsHead(run[k + 1].threads[t].pc)
  {
    assert Can(run[k], labels[k]) && run[k + 1] == Do(run[k], labels[k]);
    HeadTurn(run[k].mem, run[k].threads[t].pc);
  }

  /** Set starts over only after it has found the node at its index dead; as long as the node
      lives it tries that one again. */
  lemma SetStartsOver<T>(run: seq<State<T>>, labels: seq<Label<T>>, i: nat, k: nat, t: nat) returns (j: nat)
    requires IsRun(run, labels) && i < |run| && t in run[i].threads && run[i].threads[t].op.SetAt?
    requires LoadsHead(run[i].threads[t].pc) && run[i].threads[t].call < k < i && Loads(run, labels, k, t)
    ensures k < j < i && FindsDead(run, labels, j, t)
  {
    var th := run[i].threads[t];
    AfterLoad(run, labels, k, t);
    var at := seq(|run|, x requires 0 <= x < |run| => t in run[x].threads && run[x].threads[t] == th);
    j := SwitchPoint(at, k + 1, i);
    SetBefore(run, labels, j + 1, t);
  }

  // ---------- Looking once ----------

  /** Operations that look at a node once and go on, whether their CAS succeeds or not, or start
      over. */
  predicate LooksOnce<T>(op: Op<T>) {
    op.SetAt? || op.RemoveAt? || op.RemoveLast? || op.RemoveFunc? || op.ToSlice?
  }

  /** The walk will look at nothing up to node a any more. */
  ghost predicate Beyond<T>(c: seq<nat>, pc: PC<T>, a: nat) {
    match pc
    case WalkTest(_, b) => b == TAIL || StrictlyBefore(c, a, b)
    case WalkAdvance(_, b) => Before(c, a, b)
    case WalkCas(w, b, _) => w.LastW? || Before(c, a, b)
    case WalkReload(_, b) => Before(c, a, b)
    case _ => true
  }

  lemma BeyondNext<T>(s: State<T>, th: Thread<T>, a: nat)
    requires ChainsOk(s.mem, s.home, s.chains) && PlaceOk(s, th) && th.pc.WalkAdvance?
    requires Beyond(Chain(s, th.gen), th.pc, a)
    ensures Beyond(Chain(s, th.gen), WalkTest(th.pc.w, Next(s.mem, th.pc.curr)), a)
  {
    var c := s.chains[th.gen];
    var i := IndexOf(c, th.pc.curr);
    NextIs(s.mem, s.home, th.gen, c, i);
    if i + 1 < |c| {
      IndexUnique(c, i + 1);
    }
  }

  /** A step of the walk goes beyond what it went beyond, and a look goes beyond its node. */
  lemma BeyondTurn<T>(s: State<T>, th: Thread<T>, a: nat)
    requires ChainsOk(s.mem, s.home, s.chains) && PlaceOk(s, th) && OpFits(th.op, th.pc) && LooksOnce(th.op)
    requires Walking(th.pc) && UsesGen(th.pc) && UsesGen(Turn(s.mem, th.pc).0)
    requires Beyond(Chain(s, th.gen), th.pc, a) || (th.pc.WalkTest? && th.pc.curr == a != TAIL)
    ensures Beyond(Chain(s, th.gen), Turn(s.mem, th.pc).0, a)
  {
    if th.pc.WalkAdvance? {
      BeyondNext(s, th, a);
    } else {
      if th.pc.WalkTest? {
        WalkNotNil(s, th);
      }
      LookTurn(s.mem, Chain(s, th.gen), th.op, th.pc, a);
    }
  }

  lemma LookTurn<T>(m: Mem<T>, c: seq<nat>, op: Op<T>, pc: PC<T>, a: nat)
    requires OpFits(op, pc) && LooksOnce(op) && (pc.WalkTest? || pc.WalkCas? || pc.WalkReload?)
    requires pc.WalkTest? && pc.curr != TAIL ==> pc.curr in c && pc.curr != NIL
    requires (pc.WalkReload? ==> pc.w.SetW?) && (pc.WalkCas? ==> !pc.w.SliceW?)
    requires Beyond(c, pc, a) || (pc.WalkTest? && pc.curr == a != TAIL)
    ensures UsesGen(Turn(m, pc).0) ==> Beyond(c, Turn(m, pc).0, a)
  {
    match pc.w
    case SetW(_, _, _) =>
    case RemoveAtW(_, _) =>
    case LastW(_, _) =>
    case FuncW(_, _) =>
    case SliceW(_, _, _) =>
    case _ =>
  }

  /** Step i is a look of thread t at a node. */
  ghost predicate Looks<T>(run: seq<State<T>>, labels: seq<Label<T>>, i: nat, t: nat) {
    && i < |labels| && i < |run| && labels[i] == Move(t) && t in run[i].threads
    && run[i].threads[t].pc.WalkTest? && run[i].threads[t].pc.curr != TAIL
  }

  lemma LookPlace<T>(run: seq<State<T>>, labels: seq<Label<T>>, i: nat, t: nat)
    requires IsRun(run, labels) && i < |run| && t in run[i].threads
    ensures ChainsOk(run[i].mem, run[i].home, run[i].chains) && PlaceOk(run[i], run[i].threads[t])
    ensures OpFits(run[i].threads[t].op, run[i].threads[t].pc)
  {
    RunShape(run, labels, i);
    FitsHere(run, labels, i, t);
  }

  lemma BeyondGrows<T>(c: seq<nat>, c': seq<nat>, pc: PC<T>, a: nat)
    requires SameOrder(c, c') && Beyond(c, pc, a)
    ensures Beyond(c', pc, a)
  {
    if (pc.WalkTest? && pc.curr != TAIL) || pc.WalkAdvance? || (pc.WalkCas? && !pc.w.LastW?) || pc.WalkReload? {
      assert Before(c, a, pc.curr);
    }
  }

  /** As long as the walk lasts it stays beyond a node it has looked at. */
  lemma {:induction false} StaysBeyond<T>(run: seq<State<T>>, labels: seq<Label<T>>, i: nat, j: nat, t: nat)
    requires IsRun(run, labels) && i < j < |run| && Looks(run, labels, i, t) && t in run[j].threads
    requires LooksOnce(run[i].threads[t].op) && UsesGen(run[j].threads[t].pc)
    requires run[j].threads[t].since == run[i].threads[t].since
    ensures run[j].threads[t].op == run[i].threads[t].op
    ensures Beyond(Chain(run[j], run[j].threads[t].gen), run[j].threads[t].pc, run[i].threads[t].pc.curr)
    decreases j
  {
    SameWalkBefore(run, labels, i, j, t);
    if i < j - 1 {
      StaysBeyond(run, labels, i, j - 1, t);
    }
    BeyondStep(run, labels, i, j, t);
  }

  /** A thread in the walk of an earlier state was in it one step ago. */
  lemma SameWalkBefore<T>(run: seq<State<T>>, labels: seq<Label<T>>, i: nat, j: nat, t: nat)
    requires IsRun(run, labels) && i < j < |run| && Looks(run, labels, i, t) && t in run[j].threads
    requires UsesGen(run[j].threads[t].pc) && run[j].threads[t].since == run[i].threads[t].since
    ensures Can(run[j - 1], labels[j - 1]) && run[j] == Do(run[j - 1], labels[j - 1])
    ensures t in run[j - 1].threads && UsesGen(run[j - 1].threads[t].pc)
    ensures var th, th' := run[j - 1].threads[t], run[j].threads[t];
            && th'.since == th.since && th'.op == th.op && th'.gen == th.gen
            && if labels[j - 1] == Move(t) then th' == Stepped(run[j - 1], th) else th' == th
  {
    var s, l := run[j - 1], labels[j - 1];
    assert Can(s, l) && run[j] == Do(s, l);
    SameThreads(s, l);
    assert !(l == Move(t) && LoadsHead(s.threads[t].pc)) by {
      RunSnaps(run, labels, i, t);
      if l == Move(t) && LoadsHead(s.threads[t].pc) {
        LoadIsLast(run, labels, j, t);
      }
    }
    KeepsSince(s, l, t);
  }

  lemma BeyondStep<T>(run: seq<State<T>>, labels: seq<Label<T>>, i: nat, j: nat, t: nat)
    requires IsRun(run, labels) && i < j < |run| && Looks(run, labels, i, t)
    requires t in run[j - 1].threads && t in run[j].threads && Can(run[j - 1], labels[j - 1]) &&
             run[j] == Do(run[j - 1], labels[j - 1])
    requires LooksOnce(run[i].threads[t].op) && run[j - 1].threads[t].op == run[i].threads[t].op
    requires UsesGen(run[j - 1].threads[t].pc) && UsesGen(run[j].threads[t].pc)
    requires run[j].threads[t].gen == run[j - 1].threads[t].gen
    requires if labels[j - 1] == Move(t) then run[j].threads[t] == Stepped(run[j - 1], run[j - 1].threads[t])
             else run[j].threads[t] == run[j - 1].threads[t]
    requires i < j - 1 ==>
               Beyond(Chain(run[j - 1], run[j - 1].threads[t].gen), run[j - 1].threads[t].pc, run[i].threads[t].pc.curr)
    ensures Beyond(Chain(run[j], run[j].threads[t].gen), run[j].threads[t].pc, run[i].threads[t].pc.curr)
  {
    var s, th, a := run[j - 1], run[j - 1].threads[t], run[i].threads[t].pc.curr;
    LookPlace(run, labels, j - 1, t);
    if labels[j - 1] == Move(t) {
      BeyondTurn(s, th, a);
    }
    BeyondLater(run, labels, j, run[j].threads[t], a);
  }

  lemma BeyondLater<T>(run: seq<State<T>>, labels: seq<Label<T>>, j: nat, th: Thread<T>, a: nat)
    requires IsRun(run, labels) && 0 < j < |run| && Beyond(Chain(run[j - 1], th.gen), th.pc, a)
    ensures Beyond(Chain(run[j], th.gen), th.pc, a)
  {
    RunOrdered(run, labels, j - 1, j);
    if th.gen < |run[j - 1].chains| {
      BeyondGrows(run[j - 1].chains[th.gen], run[j].chains[th.gen], th.pc, a);
    }
  }

  /** In one walk each look is at a node behind those looked at before: none is looked at twice,
      and RemoveFunc tries its CAS on each at most once. */
  lemma OneLook<T>(run: seq<State<T>>, labels: seq<Label<T>>, i: nat, j: nat, t: nat)
    requires IsRun(run, labels) && i < j && Looks(run, labels, i, t) && Looks(run, labels, j, t)
    requires LooksOnce(run[i].threads[t].op) && run[j].threads[t].since == run[i].threads[t].since
    ensures StrictlyBefore(Chain(run[j], run[j].threads[t].gen), run[i].threads[t].pc.curr, run[j].threads[t].pc.curr)
  {
    StaysBeyond(run, labels, i, j, t);
  }
}
