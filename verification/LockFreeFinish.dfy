/**
 Operations of the lock-free list finish. If no CAS succeeds for long enough, some call
 returns, however the threads are scheduled and whichever of them are delayed; and a thread
 that is left alone returns within a number of steps linear in the length of the chain.
 */
module LockFreeFinish {
  import opened LockFreeMachine
  import opened LockFreeShape
  import opened LockFreeReach
  import opened LockFreePointers
  import opened LockFreeProgress

  // ---------- The steps a thread has left ----------

  /** Nodes from n to the end of the chain. */
  function ToGo(c: seq<nat>, n: nat): (k: nat)
    ensures k <= |c|
  {
    |c| - IndexOf(c, n)
  }

  /** The steps up to the return if no CAS fails, for a thread on the chain c, when no chain has
      more than n nodes. A thread without a call may begin one. */
  function StepsLeft<T>(c: seq<nat>, n: nat, pc: PC<T>): nat {
    match pc
    case Idle => 3 * n + 5
    case Done(_) => 3 * n + 5
    case AppendHead(_) => n + 2
    case AppendWalk(_, _, curr) => ToGo(c, curr) + 1
    case HeadLoad(_) => 3
    case HeadStore(_, _) => 2
    case HeadCas(_, _) => 1
    case InsertHead(_, _) => 2 * n + 5
    case InsertTest(_, _, _, curr, _) => 2 * ToGo(c, curr) + 4
    case InsertAdvance(_, _, pred, _) => 2 * ToGo(c, pred) + 3
    case InsertNext(_, _, _) => 3
    case InsertStore(_, _, _, _) => 2
    case InsertCas(_, _, _, _) => 1
    case ClearLoad => 2
    case ClearCas(_) => 1
    case WalkHead(_) => 3 * n + 3
    case WalkTest(_, curr) => 3 * ToGo(c, curr) + 2
    case WalkAdvance(_, curr) => 3 * ToGo(c, curr)
    case WalkCas(w, curr, _) => if w.LastW? then 1 else 3 * ToGo(c, curr) + 1
    case WalkReload(_, _) => 3 * n + 4
  }

  /** The same when the thread's CAS is bound to fail first, once. */
  ghost function Rank<T>(s: State<T>, th: Thread<T>, n: nat): nat {
    StepsLeft(Chain(s, th.gen), n, th.pc) + if Stale(s.mem, th.pc) then 3 * n + 6 else 0
  }

  function StepLimit(n: nat): nat { 6 * n + 11 }

  ghost predicate NoLonger(chains: seq<seq<nat>>, n: nat) {
    forall g :: 0 <= g < |chains| ==> |chains[g]| <= n
  }

  lemma LeftBound<T>(c: seq<nat>, n: nat, pc: PC<T>)
    requires |c| <= n
    ensures StepsLeft(c, n, pc) <= 3 * n + 5
  {
  }

  lemma RankBound<T>(s: State<T>, th: Thread<T>, n: nat)
    requires NoLonger(s.chains, n)
    ensures Rank(s, th, n) <= StepLimit(n)
  {
    LeftBound(Chain(s, th.gen), n, th.pc);
  }

  lemma NextToGo<T>(m: Mem<T>, home: map<nat, nat>, g: nat, c: seq<nat>, p: nat)
    requires ChainOk(m, home, g, c) && p in c
    ensures ToGo(c, p) == ToGo(c, Next(m, p)) + 1 && p != TAIL && p != NIL
  {
    var i := IndexOf(c, p);
    assert Next(m, c[i]) == At(c, i + 1);
    if i + 1 < |c| {
      IndexUnique(c, i + 1);
    } else {
      assert TAIL !in c;
    }
  }

  lemma NodeToGo<T>(s: State<T>, th: Thread<T>, p: nat)
    requires ChainsOk(s.mem, s.home, s.chains) && AtNode(s, th, p)
    ensures ToGo(Chain(s, th.gen), p) == ToGo(Chain(s, th.gen), Next(s.mem, p)) + 1 && p != TAIL && p != NIL
  {
    NextToGo(s.mem, s.home, th.gen, s.chains[th.gen], p);
  }

  // ---------- Own steps ----------

  /** The step brings its thread nearer to the return. */
  ghost predicate Nearer<T>(s: State<T>, th: Thread<T>, n: nat) {
    StepsLeft(Chain(s, Stepped(s, th).gen), n, Turn(s.mem, th.pc).0) < StepsLeft(Chain(s, th.gen), n, th.pc)
  }

  lemma HeadNearer<T>(s: State<T>, th: Thread<T>, n: nat)
    requires |s.chains| > 0 && NoLonger(s.chains, n) && LoadsHead(th.pc)
    ensures Nearer(s, th, n)
  {
  }

  lemma LinkNearer<T>(s: State<T>, th: Thread<T>, n: nat)
    requires ChainsOk(s.mem, s.home, s.chains) && PlaceOk(s, th) && !LoadsHead(th.pc) && !Walking(th.pc)
    requires !th.pc.Idle? && !th.pc.Done? && !Turn(s.mem, th.pc).0.Done? && !Turn(s.mem, th.pc).1.Miss?
    ensures Nearer(s, th, n)
  {
    if th.pc.AppendWalk? {
      AppendNearer(s, th, n);
    } else if th.pc.InsertAdvance? || th.pc.InsertTest? {
      SearchNearer(s, th, n);
    } else {
      ShortNearer(s, th, n);
    }
  }

  lemma ShortNearer<T>(s: State<T>, th: Thread<T>, n: nat)
    requires th.pc.HeadStore? || th.pc.HeadCas? || th.pc.InsertNext? || th.pc.InsertStore? || th.pc.InsertCas? ||
             th.pc.ClearCas?
    requires !Turn(s.mem, th.pc).0.Done? && !Turn(s.mem, th.pc).1.Miss?
    ensures Nearer(s, th, n)
  {
  }

  lemma AppendNearer<T>(s: State<T>, th: Thread<T>, n: nat)
    requires ChainsOk(s.mem, s.home, s.chains) && PlaceOk(s, th) && th.pc.AppendWalk?
    requires !Turn(s.mem, th.pc).0.Done? && !Turn(s.mem, th.pc).1.Miss?
    ensures Nearer(s, th, n)
  {
    if th.pc.curr != TAIL {
      NodeToGo(s, th, th.pc.curr);
    }
  }

  lemma SearchNearer<T>(s: State<T>, th: Thread<T>, n: nat)
    requires ChainsOk(s.mem, s.home, s.chains) && PlaceOk(s, th)
    requires (th.pc.InsertTest? || th.pc.InsertAdvance?) && !Turn(s.mem, th.pc).0.Done?
    ensures Nearer(s, th, n)
  {
    if th.pc.InsertAdvance? {
      NodeToGo(s, th, th.pc.pred);
    } else if th.pc.curr != TAIL {
      NodeToGo(s, th, th.pc.curr);
    }
    SearchTurn(s.mem, Chain(s, th.gen), n, th.pc);
  }

  lemma SearchTurn<T>(m: Mem<T>, c: seq<nat>, n: nat, pc: PC<T>)
    requires pc.InsertTest? || pc.InsertAdvance?
    requires pc.InsertTest? ==> pc.curr == TAIL || ToGo(c, pc.curr) > 0
    requires pc.InsertAdvance? ==> ToGo(c, pc.pred) == ToGo(c, Next(m, pc.pred)) + 1
    ensures Turn(m, pc).0.Done? || StepsLeft(c, n, Turn(m, pc).0) < StepsLeft(c, n, pc)
  {
  }

  lemma WalkNearer<T>(s: State<T>, th: Thread<T>, n: nat)
    requires ChainsOk(s.mem, s.home, s.chains) && NoLonger(s.chains, n) && PlaceOk(s, th)
    requires Walking(th.pc) && !th.pc.WalkHead?
    requires !Turn(s.mem, th.pc).0.Done? && !Turn(s.mem, th.pc).1.Miss?
    ensures Nearer(s, th, n)
  {
    if th.pc.WalkTest? {
      TestNearer(s, th, n);
    } else if th.pc.WalkCas? {
      CasNearer(s, th, n);
    } else {
      AdvanceNearer(s, th, n);
    }
  }

  lemma AdvanceNearer<T>(s: State<T>, th: Thread<T>, n: nat)
    requires ChainsOk(s.mem, s.home, s.chains) && NoLonger(s.chains, n) && PlaceOk(s, th)
    requires th.pc.WalkAdvance? || th.pc.WalkReload?
    ensures Nearer(s, th, n)
  {
    NodeToGo(s, th, th.pc.curr);
    AdvanceTurn(s.mem, Chain(s, th.gen), n, th.pc);
  }

  lemma AdvanceTurn<T>(m: Mem<T>, c: seq<nat>, n: nat, pc: PC<T>)
    requires |c| <= n && (pc.WalkAdvance? || pc.WalkReload?)
    requires ToGo(c, pc.curr) == ToGo(c, Next(m, pc.curr)) + 1
    ensures StepsLeft(c, n, Turn(m, pc).0) < StepsLeft(c, n, pc)
  {
  }

  lemma TestNearer<T>(s: State<T>, th: Thread<T>, n: nat)
    requires ChainsOk(s.mem, s.home, s.chains) && PlaceOk(s, th) && th.pc.WalkTest?
    requires !Turn(s.mem, th.pc).0.Done?
    ensures Nearer(s, th, n)
  {
    var c, w, curr := Chain(s, th.gen), th.pc.w, th.pc.curr;
    if curr == TAIL {
      EndNearer(c, n, w);
    } else {
      NodeToGo(s, th, curr);
      VisitNearer(c, n, w, curr, Cell(s.mem, curr));
    }
  }

  /** Only RemoveFunc goes on after its CAS. */
  lemma CasNearer<T>(s: State<T>, th: Thread<T>, n: nat)
    requires ChainsOk(s.mem, s.home, s.chains) && PlaceOk(s, th) && th.pc.WalkCas?
    requires !Turn(s.mem, th.pc).0.Done? && !Turn(s.mem, th.pc).1.Miss?
    ensures Nearer(s, th, n)
  {
    SwapWalk(s.mem, th.pc);
  }

  lemma VisitNearer<T>(c: seq<nat>, n: nat, w: Walk<T>, curr: nat, v: Ptr<T>)
    requires ToGo(c, curr) > 0
    ensures StepsLeft(c, n, Visit(w, curr, v)) < 3 * ToGo(c, curr) + 2
  {
  }

  lemma EndNearer<T>(c: seq<nat>, n: nat, w: Walk<T>)
    requires !WalkEnd(w).Done?
    ensures StepsLeft(c, n, WalkEnd(w)) < 2
  {
  }

  lemma TurnNearer<T>(s: State<T>, t: nat, n: nat)
    requires Shape(s) && Can(s, Move(t)) && NoLonger(s.chains, n)
    requires var (pc, e) := Turn(s.mem, s.threads[t].pc); !pc.Done? && !e.Miss?
    ensures Nearer(s, s.threads[t], n)
  {
    var th := s.threads[t];
    assert PlaceOk(s, th);
    if LoadsHead(th.pc) {
      HeadNearer(s, th, n);
    } else if Walking(th.pc) {
      WalkNearer(s, th, n);
    } else {
      LinkNearer(s, th, n);
    }
  }

  /** Only the last step of a call changes a chain. */
  lemma ChainsStay<T>(m: Mem<T>, pc: PC<T>)
    ensures var (pc', e) := Turn(m, pc); e.Publish? || e.Cut? ==> Counts(e) && pc'.Done?
  {
  }

  lemma SameChains<T>(s: State<T>, l: Label<T>)
    requires Can(s, l)
    requires l.Move? ==> !Counts(Turn(s.mem, s.threads[l.tid].pc).1) || !Turn(s.mem, s.threads[l.tid].pc).0.Done?
    ensures Do(s, l).chains == s.chains
  {
    if l.Move? {
      ChainsStay(s.mem, s.threads[l.tid].pc);
    }
  }

  /** A step of its own that does not finish the call lowers a thread's rank, even if it is a
      failed CAS or, in RemoveFunc, a successful one. */
  lemma OwnRank<T>(s: State<T>, t: nat, n: nat)
    requires Shape(s) && Can(s, Move(t)) && NoLonger(s.chains, n) && !DoMove(s, t).threads[t].pc.Done?
    ensures Rank(DoMove(s, t), DoMove(s, t).threads[t], n) < Rank(s, s.threads[t], n)
  {
    var s' := DoMove(s, t);
    var th, th' := s.threads[t], Stepped(s, s.threads[t]);
    SameChains(s, Move(t));
    if Stale(s'.mem, th'.pc) {
      OwnStale(s, t);
      TurnNearer(s, t, n);
    } else if Turn(s.mem, th.pc).1.Miss? {
      NotNil(s, t);
      CasOutcome(s.mem, th.pc);
      LeftBound(Chain(s, th'.gen), n, th'.pc);
    } else {
      TurnNearer(s, t, n);
    }
  }

  // ---------- Other steps ----------

  /** Without a successful CAS, the steps of others raise no rank. */
  lemma OtherRank<T>(s: State<T>, t: nat, u: nat, n: nat)
    requires Shape(s) && Can(s, Move(t)) && u in s.threads && u != t
    requires !Counts(Turn(s.mem, s.threads[t].pc).1)
    ensures Rank(DoMove(s, t), s.threads[u], n) <= Rank(s, s.threads[u], n)
  {
    SameChains(s, Move(t));
    StepStale(s, t, u);
  }

  /** Nor do calls and returns. */
  lemma CallRank<T>(s: State<T>, l: Label<T>, u: nat, n: nat)
    requires Shape(s) && Can(s, l) && !l.Move? && u in s.threads && NoLonger(s.chains, n)
    ensures Rank(Do(s, l), Do(s, l).threads[u], n) <= Rank(s, s.threads[u], n)
  {
    var s' := Do(s, l);
    NoWindow(s, l);
    SameChains(s, l);
    if u == l.tid {
      LeftBound(Chain(s', s'.threads[u].gen), n, s'.threads[u].pc);
    } else if Stale(s'.mem, s'.threads[u].pc) {
      OtherStaleAt(s, l, u);
    }
  }

  ghost predicate Finishes<T>(s: State<T>, l: Label<T>) {
    Can(s, l) && Do(s, l).threads[l.tid].pc.Done?
  }

  lemma StepRank<T>(s: State<T>, l: Label<T>, u: nat, n: nat)
    requires Shape(s) && Can(s, l) && u in s.threads && NoLonger(s.chains, n)
    requires !Finishes(s, l) && Do(s, l).wins == s.wins
    ensures Do(s, l).chains == s.chains && u in Do(s, l).threads
    ensures Rank(Do(s, l), Do(s, l).threads[u], n) + (if l == Move(u) then 1 else 0) <= Rank(s, s.threads[u], n)
  {
    SameChains(s, l);
    if l == Move(u) {
      OwnRank(s, u, n);
    } else if l.Move? {
      OtherRank(s, l.tid, u, n);
    } else {
      CallRank(s, l, u, n);
    }
  }

  // ---------- Counting steps ----------

  /** The steps labels[i..j] that are atomic accesses by threads in ts. */
  ghost function MovesBy<T>(labels: seq<Label<T>>, i: nat, j: nat, ts: set<nat>): nat
    requires i <= j <= |labels|
  {
    if i == j then 0
    else MovesBy(labels, i, j - 1, ts) + if labels[j - 1].Move? && labels[j - 1].tid in ts then 1 else 0
  }

  /** ... by any thread. */
  ghost function Moves<T>(labels: seq<Label<T>>, i: nat, j: nat): nat
    requires i <= j <= |labels|
  {
    if i == j then 0 else Moves(labels, i, j - 1) + if labels[j - 1].Move? then 1 else 0
  }

  lemma {:induction false} MovesSplit<T>(labels: seq<Label<T>>, i: nat, j: nat, ts: set<nat>, t: nat)
    requires i <= j <= |labels| && t in ts
    ensures MovesBy(labels, i, j, ts) == MovesBy(labels, i, j, ts - {t}) + MovesBy(labels, i, j, {t})
  {
    if i < j {
      MovesSplit(labels, i, j - 1, ts, t);
    }
  }

  lemma {:induction false} MovesNone<T>(labels: seq<Label<T>>, i: nat, j: nat)
    requires i <= j <= |labels|
    ensures MovesBy(labels, i, j, {}) == 0
  {
    if i < j {
      MovesNone(labels, i, j - 1);
    }
  }

  lemma {:induction false} MovesSum<T>(labels: seq<Label<T>>, i: nat, j: nat, ts: set<nat>, k: nat)
    requires i <= j <= |labels| && forall t :: t in ts ==> MovesBy(labels, i, j, {t}) <= k
    ensures MovesBy(labels, i, j, ts) <= |ts| * k
  {
    if ts == {} {
      MovesNone(labels, i, j);
    } else {
      var t :| t in ts;
      MovesSum(labels, i, j, ts - {t}, k);
      MovesSplit(labels, i, j, ts, t);
      assert |ts| * k == |ts - {t}| * k + k;
    }
  }

  lemma {:induction false} MovesAll<T>(labels: seq<Label<T>>, i: nat, j: nat, ts: set<nat>)
    requires i <= j <= |labels| && forall k :: i <= k < j ==> labels[k].tid in ts
    ensures Moves(labels, i, j) == MovesBy(labels, i, j, ts)
  {
    if i < j {
      MovesAll(labels, i, j - 1, ts);
    }
  }

  lemma InThreads<T>(run: seq<State<T>>, labels: seq<Label<T>>, i: nat, k: nat)
    requires IsRun(run, labels) && i < |run| && k < |labels|
    ensures labels[k].tid in run[i].threads
  {
    assert Can(run[k], labels[k]);
    RunKeys(run, labels, i);
    RunKeys(run, labels, k);
  }

  // ---------- Theorems ----------

  /** In step k no CAS succeeds and no call comes to its return. */
  ghost predicate Futile<T>(run: seq<State<T>>, labels: seq<Label<T>>, k: nat) {
    k < |labels| && k + 1 < |run| && run[k + 1].wins == run[k].wins && !Finishes(run[k], labels[k])
  }

  /** The rank of thread u in state j. */
  ghost function RankAt<T>(run: seq<State<T>>, j: nat, u: nat, n: nat): nat {
    if j < |run| && u in run[j].threads then Rank(run[j], run[j].threads[u], n) else 0
  }

  lemma FutileStep<T>(run: seq<State<T>>, labels: seq<Label<T>>, k: nat, u: nat, n: nat)
    requires IsRun(run, labels) && Futile(run, labels, k) && u in run[k].threads && NoLonger(run[k].chains, n)
    ensures u in run[k + 1].threads && run[k + 1].chains == run[k].chains
    ensures RankAt(run, k + 1, u, n) + (if labels[k] == Move(u) then 1 else 0) <= RankAt(run, k, u, n)
  {
    assert Shape(run[k]) by { RunShape(run, labels, k); }
    var l := labels[k];
    assert Can(run[k], l) && run[k + 1] == Do(run[k], l);
    StepRank(run[k], l, u, n);
  }

  lemma {:induction false} FutileRank<T>(run: seq<State<T>>, labels: seq<Label<T>>, i: nat, j: nat, u: nat, n: nat)
    requires IsRun(run, labels) && i <= j < |run| && forall k :: i <= k < j ==> Futile(run, labels, k)
    requires u in run[i].threads && NoLonger(run[i].chains, n)
    ensures u in run[j].threads && run[j].chains == run[i].chains
    ensures RankAt(run, j, u, n) + MovesBy(labels, i, j, {u}) <= RankAt(run, i, u, n)
  {
    if i < j {
      FutileRank(run, labels, i, j - 1, u, n);
      FutileStep(run, labels, j - 1, u, n);
    }
  }

  lemma {:induction false} WinsGrow<T>(run: seq<State<T>>, labels: seq<Label<T>>, i: nat, j: nat)
    requires IsRun(run, labels) && i <= j < |run|
    ensures run[i].wins <= run[j].wins
  {
    if i < j {
      WinsGrow(run, labels, i, j - 1);
      assert Can(run[j - 1], labels[j - 1]);
      DoCounters(run[j - 1], labels[j - 1]);
    }
  }

  lemma WinsBetween<T>(run: seq<State<T>>, labels: seq<Label<T>>, i: nat, j: nat, k: nat)
    requires IsRun(run, labels) && i <= k < j < |run| && run[j].wins == run[i].wins
    ensures run[k + 1].wins == run[k].wins
  {
    WinsGrow(run, labels, i, k);
    WinsGrow(run, labels, k, k + 1);
    WinsGrow(run, labels, k + 1, j);
  }

  lemma FewFutile<T>(run: seq<State<T>>, labels: seq<Label<T>>, i: nat, j: nat, n: nat)
    requires IsRun(run, labels) && i <= j < |run| && forall k :: i <= k < j ==> Futile(run, labels, k)
    requires NoLonger(run[i].chains, n)
    ensures Moves(labels, i, j) <= |run[i].threads| * StepLimit(n)
  {
    var ts := run[i].threads.Keys;
    forall u | u in ts
      ensures MovesBy(labels, i, j, {u}) <= StepLimit(n)
    {
      FutileRank(run, labels, i, j, u, n);
      RankBound(run[i], run[i].threads[u], n);
    }
    MovesSum(labels, i, j, ts, StepLimit(n));
    forall k | i <= k < j
      ensures labels[k].tid in ts
    {
      InThreads(run, labels, i, k);
    }
    MovesAll(labels, i, j, ts);
    assert |ts| == |run[i].threads|;
  }

  /** Lock-freedom: in any stretch of a run without a successful CAS, of more than StepLimit(n)
      steps for each thread there is, some call comes to its return. */
  lemma SomeCallFinishes<T>(run: seq<State<T>>, labels: seq<Label<T>>, i: nat, j: nat, n: nat) returns (k: nat)
    requires IsRun(run, labels) && i <= j < |run| && run[j].wins == run[i].wins && NoLonger(run[i].chains, n)
    requires Moves(labels, i, j) > |run[i].threads| * StepLimit(n)
    ensures i <= k < j && Finishes(run[k], labels[k])
  {
    if forall k :: i <= k < j ==> Futile(run, labels, k) {
      FewFutile(run, labels, i, j, n);
      assert false;
    }
    k :| i <= k < j && !Futile(run, labels, k);
    WinsBetween(run, labels, i, j, k);
  }

  predicate MoveOf<T>(labels: seq<Label<T>>, k: nat, t: nat) {
    k < |labels| && labels[k].Move? && labels[k].tid == t
  }

  lemma AloneStep<T>(run: seq<State<T>>, labels: seq<Label<T>>, k: nat, t: nat, n: nat)
    requires IsRun(run, labels) && MoveOf(labels, k, t) && MoveOf(labels, k + 1, t) && NoLonger(run[k].chains, n)
    ensures Nears(run, k, t, n)
  {
    assert Shape(run[k]) by { RunShape(run, labels, k); }
    assert Can(run[k], labels[k]) && run[k + 1] == Do(run[k], labels[k]);
    assert Can(run[k + 1], labels[k + 1]);
    SameChains(run[k], Move(t));
    OwnRank(run[k], t, n);
  }

  ghost predicate Nears<T>(run: seq<State<T>>, k: nat, t: nat, n: nat) {
    k + 1 < |run| && NoLonger(run[k + 1].chains, n) && RankAt(run, k + 1, t, n) < RankAt(run, k, t, n)
  }

  lemma {:induction false} NearsRank<T>(run: seq<State<T>>, i: nat, j: nat, t: nat, n: nat)
    requires i <= j < |run| && NoLonger(run[i].chains, n)
    requires forall k :: i <= k < j && NoLonger(run[k].chains, n) ==> Nears(run, k, t, n)
    ensures RankAt(run, j, t, n) + (j - i) <= RankAt(run, i, t, n)
    decreases j - i
  {
    if i < j {
      assert Nears(run, i, t, n);
      NearsRank(run, i + 1, j, t, n);
    }
  }

  lemma AloneRank<T>(run: seq<State<T>>, labels: seq<Label<T>>, i: nat, j: nat, t: nat, n: nat)
    requires IsRun(run, labels) && i <= j < |labels| && NoLonger(run[i].chains, n)
    requires forall k :: i <= k <= j ==> MoveOf(labels, k, t)
    ensures RankAt(run, j, t, n) + (j - i) <= RankAt(run, i, t, n)
  {
    forall k | i <= k < j && NoLonger(run[k].chains, n)
      ensures Nears(run, k, t, n)
    {
      assert MoveOf(labels, k, t) && MoveOf(labels, k + 1, t);
      AloneStep(run, labels, k, t, n);
    }
    NearsRank(run, i, j, t, n);
  }

  /** Whatever the others have done before, a thread that is left alone comes to its return
      within StepLimit(n) steps: it cannot take more than that without returning. */
  lemma AloneFinishes<T>(run: seq<State<T>>, labels: seq<Label<T>>, i: nat, j: nat, t: nat, n: nat)
    requires IsRun(run, labels) && i <= j <= |labels| && NoLonger(run[i].chains, n)
    requires forall k :: i <= k < j ==> MoveOf(labels, k, t)
    ensures j - i <= StepLimit(n)
  {
    if i < j {
      assert RankAt(run, j - 1, t, n) > 0 by {
        assert MoveOf(labels, j - 1, t);
        StillToDoAt(run, labels, j - 1, t, n);
      }
      RankAtBound(run, i, t, n);
      AloneRank(run, labels, i, j - 1, t, n);
    }
  }

  lemma StillToDo<T>(s: State<T>, t: nat, n: nat)
    requires Shape(s) && Can(s, Move(t))
    ensures Rank(s, s.threads[t], n) > 0
  {
    var th := s.threads[t];
    assert PlaceOk(s, th);
    if th.pc.WalkAdvance? {
      NodeToGo(s, th, th.pc.curr);
    }
  }

  lemma StillToDoAt<T>(run: seq<State<T>>, labels: seq<Label<T>>, k: nat, t: nat, n: nat)
    requires IsRun(run, labels) && MoveOf(labels, k, t)
    ensures RankAt(run, k, t, n) > 0
  {
    RunShape(run, labels, k);
    assert Can(run[k], labels[k]);
    StillToDo(run[k], t, n);
  }

  lemma RankAtBound<T>(run: seq<State<T>>, k: nat, t: nat, n: nat)
    requires k < |run| && NoLonger(run[k].chains, n)
    ensures RankAt(run, k, t, n) <= StepLimit(n)
  {
    if t in run[k].threads {
      RankBound(run[k], run[k].threads[t], n);
    }
  }
}
