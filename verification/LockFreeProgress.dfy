/**
 Lock-freedom with a bound: a CAS fails only because another thread's CAS succeeded on the
 same field since this thread loaded it, so failures are paid for by successes.
 */
module LockFreeProgress {
  import opened LockFreeMachine
  import opened LockFreeShape

  /** The field a thread has loaded in order to CAS it, and the value it saw there. */
  datatype Window<T> = Shut | OnNext(node: nat, want: nat) | OnCell(node: nat, seen: Ptr<T>)

  function WindowOf<T>(pc: PC<T>): Window<T> {
    match pc
    case AppendWalk(_, pred, curr) => if curr == TAIL then OnNext(pred, TAIL) else Shut
    case HeadStore(_, first) => OnNext(HEAD, first)
    case HeadCas(_, first) => OnNext(HEAD, first)
    case InsertStore(_, _, pred, succ) => OnNext(pred, succ)
    case InsertCas(_, _, pred, succ) => OnNext(pred, succ)
    case ClearCas(first) => OnNext(HEAD, first)
    case WalkTest(w, _) => LastWindow(w)
    case WalkAdvance(w, _) => LastWindow(w)
    case WalkCas(_, curr, v) => OnCell(curr, v)
    case _ => Shut
  }

  /** RemoveLast remembers the last live node while it walks on. */
  function LastWindow<T>(w: Walk<T>): Window<T> {
    if w.LastW? && w.last != NIL then OnCell(w.last, w.lastVal) else Shut
  }

  /** The field no longer holds the value. */
  predicate Outdated<T>(m: Mem<T>, w: Window<T>) {
    match w
    case Shut => false
    case OnNext(n, want) => Next(m, n) != want
    case OnCell(n, seen) => !SamePtr(Cell(m, n), seen)
  }

  predicate Stale<T>(m: Mem<T>, pc: PC<T>) {
    Outdated(m, WindowOf(pc))
  }

  /** The effect writes the field of the window. */
  predicate Hits<T>(e: Effect<T>, w: Window<T>) {
    match w
    case Shut => false
    case OnNext(n, _) => (e.Publish? && e.pred == n) || (e.Cut? && n == HEAD)
    case OnCell(n, _) => e.Swap? && e.node == n
  }

  // ---------- One step ----------

  /** The CAS at pc fails exactly when the window is outdated. */
  lemma CasOutcome<T>(m: Mem<T>, pc: PC<T>)
    requires pc.AppendWalk? ==> pc.curr != NIL
    ensures Turn(m, pc).1.Miss? ==> Stale(m, pc)
    ensures Counts(Turn(m, pc).1) ==> !Stale(m, pc) && WindowOf(pc) != Shut
    ensures Turn(m, pc).1.Miss? || Counts(Turn(m, pc).1) ==> WindowOf(Turn(m, pc).0) == Shut
  {
    if pc.WalkCas? {
      match pc.w
      case LastW(_, _) =>
      case _ =>
    }
  }

  /** A load opens a window on what it has just read; any other quiet step keeps the window. */
  lemma OwnWindow<T>(m: Mem<T>, pc: PC<T>)
    requires pc.AppendWalk? ==> pc.curr != NIL
    requires pc.WalkHead? && pc.w.LastW? ==> pc.w.last == NIL
    requires Turn(m, pc).1.Quiet? || Turn(m, pc).1.Link?
    ensures var pc' := Turn(m, pc).0; Stale(m, pc') || Turn(m, pc).1.Link? ==> WindowOf(pc') == WindowOf(pc)
  {
    if pc.WalkTest? || pc.WalkAdvance? || pc.WalkReload? || pc.WalkHead? {
      match pc.w
      case LastW(_, _) =>
      case _ =>
    }
  }

  /** The node of a window is shared. */
  ghost predicate WindowShared<T>(s: State<T>, w: Window<T>) {
    w.Shut? || w.node == HEAD || w.node in s.home
  }

  lemma WindowIsShared<T>(s: State<T>, t: nat)
    requires Shape(s) && t in s.threads
    ensures WindowShared(s, WindowOf(s.threads[t].pc))
  {
    var th := s.threads[t];
    assert PlaceOk(s, th);
    forall n: nat | AtNode(s, th, n)
      ensures n in s.home
    {
      AtNodeHome(s, th, n);
    }
  }

  /** Only a successful CAS of its field can outdate a window. */
  lemma WriteOutdates<T>(m: Mem<T>, e: Effect<T>, w: Window<T>)
    requires !Outdated(m, w) && Outdated(Write(m, e), w)
    requires e.Link? ==> w.Shut? || w.node != e.node
    ensures Counts(e) && Hits(e, w)
  {
  }

  lemma OnlyHitsOutdate<T>(s: State<T>, t: nat, w: Window<T>)
    requires Shape(s) && Can(s, Move(t)) && WindowShared(s, w)
    requires !Outdated(s.mem, w) && Outdated(DoMove(s, t).mem, w)
    ensures var e := Turn(s.mem, s.threads[t].pc).1; Counts(e) && Hits(e, w)
  {
    TurnEffect(s, t);
    WriteOutdates(s.mem, Turn(s.mem, s.threads[t].pc).1, w);
  }

  lemma NothingRefreshes<T>(s: State<T>, l: Label<T>, w: Window<T>)
    requires Shape(s) && Can(s, l) && WindowShared(s, w) && !l.Move?
    ensures Outdated(Do(s, l).mem, w) <==> Outdated(s.mem, w)
  {
    HomeNodes(s.mem, s.home, s.chains);
    if l.Begin? {
      CallFrame(s.mem, l.op);
    }
  }

  // ---------- The bound ----------

  ghost function StaleThreads<T>(s: State<T>): set<nat> {
    set t | t in s.threads && Stale(s.mem, s.threads[t].pc)
  }

  /** What a step does to the set of threads whose CAS is bound to fail. */
  ghost predicate StaleStep<T>(s: State<T>, s': State<T>, l: Label<T>)
    requires Can(s, l)
  {
    var e := if l.Move? then Turn(s.mem, s.threads[l.tid].pc).1 else Quiet;
    && s'.threads.Keys == s.threads.Keys
    && (if Counts(e) then l.tid !in StaleThreads(s')
        else if e.Miss? then l.tid in StaleThreads(s) && StaleThreads(s') <= StaleThreads(s) - {l.tid}
        else StaleThreads(s') <= StaleThreads(s))
  }

  lemma StepStale<T>(s: State<T>, t: nat, u: nat)
    requires Shape(s) && Can(s, Move(t)) && u in s.threads
    ensures var s' := DoMove(s, t); var e := Turn(s.mem, s.threads[t].pc).1;
            && u in s'.threads
            && (Stale(s'.mem, s'.threads[u].pc) ==>
                  if u == t then !Counts(e) && !e.Miss? && Stale(s.mem, s.threads[u].pc)
                  else Counts(e) || Stale(s.mem, s.threads[u].pc))
  {
    var s' := DoMove(s, t);
    var th := s.threads[t];
    var e := Turn(s.mem, th.pc).1;
    WindowIsShared(s, u);
    var w := WindowOf(s'.threads[u].pc);
    if Stale(s'.mem, s'.threads[u].pc) {
      if u == t {
        OwnStale(s, t);
      } else if !Outdated(s.mem, w) {
        OnlyHitsOutdate(s, t, w);
      }
    }
  }

  lemma NotNil<T>(s: State<T>, t: nat)
    requires Shape(s) && t in s.threads
    ensures s.threads[t].pc.AppendWalk? ==> s.threads[t].pc.curr != NIL
    ensures s.threads[t].pc.WalkHead? && s.threads[t].pc.w.LastW? ==> s.threads[t].pc.w.last == NIL
  {
    var th := s.threads[t];
    assert PlaceOk(s, th);
    if th.pc.AppendWalk? && AtNode(s, th, th.pc.curr) {
      AtNodeHome(s, th, th.pc.curr);
    }
  }

  lemma OwnStale<T>(s: State<T>, t: nat)
    requires Shape(s) && Can(s, Move(t))
    requires Stale(DoMove(s, t).mem, DoMove(s, t).threads[t].pc)
    ensures var e := Turn(s.mem, s.threads[t].pc).1;
            !Counts(e) && !e.Miss? && Stale(s.mem, s.threads[t].pc) &&
              WindowOf(DoMove(s, t).threads[t].pc) == WindowOf(s.threads[t].pc)
  {
    var s' := DoMove(s, t);
    var th := s.threads[t];
    var e := Turn(s.mem, th.pc).1;
    NotNil(s, t);
    CasOutcome(s.mem, th.pc);
    var pc' := Turn(s.mem, th.pc).0;
    assert s'.threads[t].pc == pc';
    if !Counts(e) && !e.Miss? {
      OwnWindow(s.mem, th.pc);
      WindowIsShared(s, t);
      if e.Link? && !Outdated(s.mem, WindowOf(pc')) {
        OnlyHitsOutdate(s, t, WindowOf(pc'));
      }
    }
  }

  lemma MoveStale<T>(s: State<T>, t: nat)
    requires Shape(s) && Can(s, Move(t))
    ensures StaleStep(s, DoMove(s, t), Move(t))
  {
    var s' := DoMove(s, t);
    var e := Turn(s.mem, s.threads[t].pc).1;
    NotNil(s, t);
    CasOutcome(s.mem, s.threads[t].pc);
    forall u | u in s.threads
      ensures u in StaleThreads(s') ==>
                if u == t then !Counts(e) && !e.Miss? && u in StaleThreads(s) else Counts(e) || u in StaleThreads(s)
    {
      StepStale(s, t, u);
    }
  }

  /** A call starts, and a thread idles, with no window open. */
  lemma NoWindow<T>(s: State<T>, l: Label<T>)
    requires Can(s, l) && !l.Move?
    ensures l.tid in s.threads && WindowOf(Do(s, l).threads[l.tid].pc).Shut?
    ensures Do(s, l).threads.Keys == s.threads.Keys
    ensures forall u :: u in s.threads && u != l.tid ==> Do(s, l).threads[u] == s.threads[u]
  {
  }

  lemma OtherStaleAt<T>(s: State<T>, l: Label<T>, u: nat)
    requires Shape(s) && Can(s, l) && !l.Move? && u in StaleThreads(Do(s, l))
    ensures u in StaleThreads(s)
  {
    NoWindow(s, l);
    WindowIsShared(s, u);
    NothingRefreshes(s, l, WindowOf(s.threads[u].pc));
  }

  lemma OtherStale<T>(s: State<T>, l: Label<T>)
    requires Shape(s) && Can(s, l) && !l.Move?
    ensures StaleThreads(Do(s, l)) <= StaleThreads(s)
  {
    forall u | u in StaleThreads(Do(s, l))
      ensures u in StaleThreads(s)
    {
      OtherStaleAt(s, l, u);
    }
  }

  lemma DoStale<T>(s: State<T>, l: Label<T>)
    requires Shape(s) && Can(s, l)
    ensures StaleStep(s, Do(s, l), l)
  {
    match l
    case Move(t) => MoveStale(s, t);
    case Begin(_, _) => OtherStale(s, l);
    case Finish(_) => OtherStale(s, l);
  }

  /** The account of failures: each is paid for in advance by a success. */
  ghost predicate PaidBy(fails: int, stale: int, others: int, wins: int) {
    fails + stale <= others * wins
  }

  ghost predicate Paid<T>(s: State<T>) {
    PaidBy(s.fails, |StaleThreads(s)|, |s.threads| - 1, s.wins)
  }

  lemma SmallerSet(a: set<nat>, b: set<nat>)
    requires a <= b
    ensures |a| <= |b|
  {
    if a != {} {
      var x :| x in a;
      SmallerSet(a - {x}, b - {x});
    }
  }

  lemma PaidNext(fails: nat, stale: nat, stale': nat, others: int, wins: nat, won: bool, missed: bool)
    requires PaidBy(fails, stale, others, wins)
    requires if won then stale' <= others else if missed then stale' < stale else stale' <= stale
    requires !(won && missed)
    ensures PaidBy(if missed then fails + 1 else fails, stale', others, if won then wins + 1 else wins)
  {
    assert others * (wins + 1) == others * wins + others;
  }

  lemma StaleCount<T>(s: State<T>, s': State<T>, l: Label<T>)
    requires Can(s, l) && StaleStep(s, s', l)
    ensures var e := if l.Move? then Turn(s.mem, s.threads[l.tid].pc).1 else Quiet;
            var before, after := |StaleThreads(s)|, |StaleThreads(s')|;
            if Counts(e) then after <= |s.threads| - 1 else if e.Miss? then after < before else after <= before
  {
    var e := if l.Move? then Turn(s.mem, s.threads[l.tid].pc).1 else Quiet;
    var before, after := StaleThreads(s), StaleThreads(s');
    if Counts(e) {
      SmallerSet(after, s.threads.Keys - {l.tid});
    } else if e.Miss? {
      SmallerSet(after, before - {l.tid});
    } else {
      SmallerSet(after, before);
    }
  }

  ghost predicate Counted<T>(s: State<T>, s': State<T>, e: Effect<T>) {
    && s'.wins == (if Counts(e) then s.wins + 1 else s.wins)
    && s'.fails == (if e.Miss? then s.fails + 1 else s.fails)
    && |s'.threads| == |s.threads|
  }

  lemma DoCounters<T>(s: State<T>, l: Label<T>)
    requires Can(s, l)
    ensures Counted(s, Do(s, l), if l.Move? then Turn(s.mem, s.threads[l.tid].pc).1 else Quiet)
  {
    assert Do(s, l).threads.Keys == s.threads.Keys;
    assert |Do(s, l).threads.Keys| == |s.threads.Keys|;
  }

  lemma StepPaid<T>(s: State<T>, s': State<T>, l: Label<T>)
    requires Paid(s) && Can(s, l) && StaleStep(s, s', l)
    requires Counted(s, s', if l.Move? then Turn(s.mem, s.threads[l.tid].pc).1 else Quiet)
    ensures Paid(s')
  {
    var e := if l.Move? then Turn(s.mem, s.threads[l.tid].pc).1 else Quiet;
    StaleCount(s, s', l);
    PaidNext(s.fails, |StaleThreads(s)|, |StaleThreads(s')|, |s.threads| - 1, s.wins, Counts(e), e.Miss?);
  }

  lemma DoPaid<T>(s: State<T>, l: Label<T>)
    requires Shape(s) && Paid(s) && Can(s, l)
    ensures Paid(Do(s, l))
  {
    DoStale(s, l);
    DoCounters(s, l);
    StepPaid(s, Do(s, l), l);
  }

  lemma {:induction false} RunPaid<T>(run: seq<State<T>>, labels: seq<Label<T>>, i: nat)
    requires IsRun(run, labels) && i < |run|
    ensures Paid(run[i])
  {
    if i == 0 {
      assert StaleThreads(run[0]) == {};
    } else {
      RunPaid(run, labels, i - 1);
      RunShape(run, labels, i - 1);
      assert Can(run[i - 1], labels[i - 1]);
      DoPaid(run[i - 1], labels[i - 1]);
    }
  }

  /** Over any run of T threads, failed CASes are at most (T - 1) times successful ones. */
  lemma FailuresBounded<T>(run: seq<State<T>>, labels: seq<Label<T>>, i: nat)
    requires IsRun(run, labels) && i < |run|
    ensures run[i].fails <= (|run[i].threads| - 1) * run[i].wins
  {
    RunPaid(run, labels, i);
  }

  // ---------- Why a CAS failed ----------

  /** Step k was another thread's successful CAS of the field, after thread t had loaded it. */
  ghost predicate Culprit<T>(run: seq<State<T>>, labels: seq<Label<T>>, k: nat, i: nat, t: nat, w: Window<T>) {
    && k < i < |run| && Strikes(run, labels, k, t, w) && !Outdated(run[k].mem, w)
    && forall j :: k <= j <= i ==> t in run[j].threads && WindowOf(run[j].threads[t].pc) == w
  }

  lemma FreshlyStale<T>(s: State<T>, l: Label<T>, t: nat, w: Window<T>)
    requires Shape(s) && Can(s, l) && t in s.threads && w == WindowOf(s.threads[t].pc)
    requires !Outdated(s.mem, w) && Outdated(Do(s, l).mem, w)
    ensures l.Move? && var e := Turn(s.mem, s.threads[l.tid].pc).1; Counts(e) && Hits(e, w)
  {
    WindowIsShared(s, t);
    if l.Move? {
      OnlyHitsOutdate(s, l.tid, w);
    } else {
      NothingRefreshes(s, l, w);
    }
  }

  /** One step back from a stale window. */
  lemma OneBack<T>(s: State<T>, l: Label<T>, s': State<T>, t: nat)
    requires Shape(s) && Can(s, l) && s' == Do(s, l) && t in s'.threads
    requires Stale(s'.mem, s'.threads[t].pc)
    ensures var w := WindowOf(s'.threads[t].pc);
            && t in s.threads && WindowOf(s.threads[t].pc) == w
            && (Outdated(s.mem, w) ||
                (l.Move? && l.tid != t && var e := Turn(s.mem, s.threads[l.tid].pc).1; Counts(e) && Hits(e, w)))
  {
    WindowBefore(s, l, t);
    var w := WindowOf(s'.threads[t].pc);
    if !Outdated(s.mem, w) {
      FreshlyStale(s, l, t, w);
    }
  }

  /** Where a property that was first false became true. */
  lemma {:induction false} FindSwitch<W>(ws: seq<W>, stale: seq<bool>, struck: seq<bool>, i: nat) returns (k: nat)
    requires |ws| == |stale| == |struck| && i < |ws|
    requires !stale[0] && stale[i]
    requires forall j :: 0 < j < |ws| && stale[j] ==> ws[j - 1] == ws[j] && (stale[j - 1] || struck[j - 1])
    ensures k < i && struck[k] && !stale[k] && forall j :: k <= j <= i ==> ws[j] == ws[i]
  {
    k := i - 1;
    if stale[i - 1] {
      k := FindSwitch(ws, stale, struck, i - 1);
    }
  }

  lemma {:induction false} RunKeys<T>(run: seq<State<T>>, labels: seq<Label<T>>, i: nat)
    requires IsRun(run, labels) && i < |run|
    ensures run[i].threads.Keys == run[0].threads.Keys
  {
    if i > 0 {
      RunKeys(run, labels, i - 1);
      assert Can(run[i - 1], labels[i - 1]);
    }
  }

  /** Step k of the run is another thread's successful CAS of the field of w. */
  ghost predicate Strikes<T>(run: seq<State<T>>, labels: seq<Label<T>>, k: nat, t: nat, w: Window<T>) {
    && k < |run| && k < |labels| && labels[k].Move? && labels[k].tid != t && Can(run[k], labels[k])
    && var e := Turn(run[k].mem, run[k].threads[labels[k].tid].pc).1; Counts(e) && Hits(e, w)
  }

  lemma StrikesBack<T>(run: seq<State<T>>, labels: seq<Label<T>>, j: nat, t: nat)
    requires IsRun(run, labels) && 0 < j < |run| && t in run[j].threads
    requires Stale(run[j].mem, run[j].threads[t].pc)
    ensures t in run[j - 1].threads && WindowOf(run[j - 1].threads[t].pc) == WindowOf(run[j].threads[t].pc)
    ensures Stale(run[j - 1].mem, run[j - 1].threads[t].pc) ||
            Strikes(run, labels, j - 1, t, WindowOf(run[j - 1].threads[t].pc))
  {
    RunShape(run, labels, j - 1);
    assert Can(run[j - 1], labels[j - 1]);
    OneBack(run[j - 1], labels[j - 1], run[j], t);
  }

  lemma StaleHasCulprit<T>(run: seq<State<T>>, labels: seq<Label<T>>, i: nat, t: nat) returns (k: nat)
    requires IsRun(run, labels) && i < |run| && t in run[i].threads
    requires Stale(run[i].mem, run[i].threads[t].pc)
    ensures Culprit(run, labels, k, i, t, WindowOf(run[i].threads[t].pc))
  {
    forall j: nat | j < |run|
      ensures t in run[j].threads
    {
      RunKeys(run, labels, j);
      RunKeys(run, labels, i);
    }
    k := LastSwitch(run, labels, i, t);
  }

  lemma LastSwitch<T>(run: seq<State<T>>, labels: seq<Label<T>>, i: nat, t: nat) returns (k: nat)
    requires IsRun(run, labels) && i < |run| && forall j :: 0 <= j < |run| ==> t in run[j].threads
    requires Stale(run[i].mem, run[i].threads[t].pc)
    ensures Culprit(run, labels, k, i, t, WindowOf(run[i].threads[t].pc))
  {
    var ws := seq(|run|, j requires 0 <= j < |run| => WindowOf(run[j].threads[t].pc));
    var stale := seq(|run|, j requires 0 <= j < |run| => Outdated(run[j].mem, ws[j]));
    var struck := seq(|run|, j requires 0 <= j < |run| => Strikes(run, labels, j, t, ws[j]));
    forall j | 0 < j < |ws| && stale[j]
      ensures ws[j - 1] == ws[j] && (stale[j - 1] || struck[j - 1])
    {
      StrikesBack(run, labels, j, t);
    }
    assert WindowOf(run[0].threads[t].pc) == Shut;
    k := FindSwitch(ws, stale, struck, i);
  }

  /** A stale window was already open before the step, and its owner did not succeed. */
  lemma WindowBefore<T>(s: State<T>, l: Label<T>, t: nat)
    requires Shape(s) && Can(s, l) && t in Do(s, l).threads
    requires Stale(Do(s, l).mem, Do(s, l).threads[t].pc)
    ensures t in s.threads && WindowOf(s.threads[t].pc) == WindowOf(Do(s, l).threads[t].pc)
    ensures l.Move? && l.tid == t ==> Stale(s.mem, s.threads[t].pc)
  {
    if l.Move? && l.tid == t {
      OwnStale(s, t);
    } else if !l.Move? {
      NoWindow(s, l);
    }
  }

  /** A CAS fails only if another thread's CAS changed the field between this thread's load
      of it and the CAS. */
  lemma FailureHasCulprit<T>(run: seq<State<T>>, labels: seq<Label<T>>, i: nat, t: nat) returns (k: nat)
    requires IsRun(run, labels) && i < |labels| && labels[i] == Move(t) && Can(run[i], labels[i])
    requires Turn(run[i].mem, run[i].threads[t].pc).1.Miss?
    ensures Culprit(run, labels, k, i, t, WindowOf(run[i].threads[t].pc))
  {
    RunShape(run, labels, i);
    NotNil(run[i], t);
    CasOutcome(run[i].mem, run[i].threads[t].pc);
    k := StaleHasCulprit(run, labels, i, t);
  }
}
