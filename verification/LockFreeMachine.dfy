/**
 The lock-free list of lockfreelist.go as a step machine.

 Any number of threads share a memory of chain nodes. Every atomic Load, Store or
 CompareAndSwap of the program is one step of one thread; code between two such
 accesses belongs to the step of the access it follows or precedes. `Turn` is that
 code, one case for each program point. Everything below "History" is bookkeeping
 that no step reads: it names what the theorems talk about.
 */
module LockFreeMachine {

  // ---------- Memory ----------

  // Addresses. The two sentinels are allocated once and never replaced.
  const NIL: nat := 0
  const HEAD: nat := 1
  const TAIL: nat := 2

  /** A pointer to a boxed element. The box is written only when it is allocated, so a
      pointer is its address together with the element found there. */
  datatype Ptr<T> = Nil | Ref(addr: nat, value: T)

  /** Pointers are compared by address. */
  predicate SamePtr<T>(p: Ptr<T>, q: Ptr<T>) {
    if p.Nil? || q.Nil? then p.Nil? && q.Nil? else p.addr == q.addr
  }

  /** `next` and `state` of every node allocated so far; `brk` is the first free address. */
  datatype Mem<T> = Mem(next: map<nat, nat>, cell: map<nat, Ptr<T>>, brk: nat)

  function Next<T>(m: Mem<T>, n: nat): nat {
    if n in m.next then m.next[n] else NIL
  }

  function Cell<T>(m: Mem<T>, n: nat): Ptr<T> {
    if n in m.cell then m.cell[n] else Nil
  }

  // ---------- Operations and program points ----------

  datatype Op<!T> =
    | Append(elems: seq<T>)              // Add, AddAll
    | Insert(index: int, elem: T)
    | Clear
    | SetAt(index: int, elem: T)
    | RemoveAt(index: int)
    | RemoveFirst
    | RemoveLast
    | Remove(matches: T -> bool)
    | RemoveFunc(pred: T -> bool)
    | ToSlice                            // and every other read-only walk

  datatype Result<T> = Unit | Ok(ok: bool) | Got(value: T) | Missing | Count(n: nat) | Slice(elems: seq<T>)

  /** What a walk over the chain is for, with the loop's own variables. A slice walk also
      remembers the nodes it has passed and the (node, pointer) pairs it reported. */
  datatype Walk<!T> =
    | SetW(index: nat, box: Ptr<T>, i: nat)
    | RemoveAtW(index: nat, i: nat)
    | FirstW
    | LastW(last: nat, lastVal: Ptr<T>)
    | MatchW(matches: T -> bool)
    | FuncW(pred: T -> bool, removed: nat)
    | SliceW(acc: seq<T>, seen: seq<nat>, hits: seq<(nat, Ptr<T>)>)

  datatype PC<!T> =
    | Idle
    | Done(res: Result<T>)
      // appendChain: batch is the private chain [first..last]
    | AppendHead(batch: seq<nat>)
    | AppendWalk(batch: seq<nat>, pred: nat, curr: nat)
      // insertAtHead
    | HeadLoad(node: nat)
    | HeadStore(node: nat, first: nat)
    | HeadCas(node: nat, first: nat)
      // Insert, index > 0
    | InsertHead(node: nat, index: nat)
    | InsertTest(node: nat, index: nat, pred: nat, curr: nat, i: nat)
    | InsertAdvance(node: nat, index: nat, pred: nat, i: nat)
    | InsertNext(node: nat, index: nat, pred: nat)
    | InsertStore(node: nat, index: nat, pred: nat, succ: nat)
    | InsertCas(node: nat, index: nat, pred: nat, succ: nat)
      // Clear
    | ClearLoad
    | ClearCas(first: nat)
      // every loop that looks at node states
    | WalkHead(w: Walk<T>)
    | WalkTest(w: Walk<T>, curr: nat)
    | WalkAdvance(w: Walk<T>, curr: nat)
    | WalkCas(w: Walk<T>, curr: nat, v: Ptr<T>)
    | WalkReload(w: Walk<T>, curr: nat)

  /** What a step does to the shared memory. */
  datatype Effect<T> =
    | Quiet                                  // a load
    | Link(node: nat, to: nat)               // a store to a node nobody else can see
    | Publish(pred: nat, batch: seq<nat>)    // a successful CAS of pred.next
    | Cut                                    // the successful CAS of Clear
    | Swap(node: nat, box: Ptr<T>)           // a successful CAS of node.state
    | Miss                                   // a failed CAS

  // ---------- The program ----------

  /** One step at pc: the next program point and the effect on memory. */
  function Turn<T>(m: Mem<T>, pc: PC<T>): (PC<T>, Effect<T>) {
    match pc
    case Idle => (pc, Quiet)
    case Done(_) => (pc, Quiet)
    case AppendHead(b) => (AppendWalk(b, HEAD, Next(m, HEAD)), Quiet)
    case AppendWalk(b, pred, curr) =>
      if curr != NIL && curr != TAIL then (AppendWalk(b, curr, Next(m, curr)), Quiet)
      else if Next(m, pred) == TAIL then (Done(Unit), Publish(pred, b))
      else (AppendHead(b), Miss)
    case HeadLoad(node) => (HeadStore(node, Next(m, HEAD)), Quiet)
    case HeadStore(node, first) => (HeadCas(node, first), Link(node, first))
    case HeadCas(node, first) =>
      if Next(m, HEAD) == first then (Done(Ok(true)), Publish(HEAD, [node]))
      else (HeadLoad(node), Miss)
    case InsertHead(node, index) => (InsertTest(node, index, HEAD, Next(m, HEAD), 0), Quiet)
    case InsertTest(node, index, pred, curr, i) =>
      if curr == NIL || curr == TAIL then (Done(Ok(false)), Quiet)
      else if Cell(m, curr).Nil? then (InsertAdvance(node, index, curr, i), Quiet)
      else if i + 1 == index then (InsertNext(node, index, curr), Quiet)
      else (InsertAdvance(node, index, curr, i + 1), Quiet)
    case InsertAdvance(node, index, pred, i) => (InsertTest(node, index, pred, Next(m, pred), i), Quiet)
    case InsertNext(node, index, pred) => (InsertStore(node, index, pred, Next(m, pred)), Quiet)
    case InsertStore(node, index, pred, succ) => (InsertCas(node, index, pred, succ), Link(node, succ))
    case InsertCas(node, index, pred, succ) =>
      if Next(m, pred) == succ then (Done(Ok(true)), Publish(pred, [node]))
      else (InsertHead(node, index), Miss)
    case ClearLoad => (ClearCas(Next(m, HEAD)), Quiet)
    case ClearCas(first) =>
      if Next(m, HEAD) == first then (Done(Unit), Cut) else (ClearLoad, Miss)
    case WalkHead(w) => (WalkTest(w, Next(m, HEAD)), Quiet)
    case WalkTest(w, curr) =>
      if curr == NIL || curr == TAIL then (WalkEnd(w), Quiet)
      else (Visit(w, curr, Cell(m, curr)), Quiet)
    case WalkAdvance(w, curr) => (WalkTest(w, Next(m, curr)), Quiet)
    case WalkCas(w, curr, v) =>
      if SamePtr(Cell(m, curr), v) then (CasWon(w, curr, v), Swap(curr, Replacement(w)))
      else (CasLost(w, curr), Miss)
    case WalkReload(w, curr) =>
      if Cell(m, curr).Nil? then (WalkHead(Restart(w)), Quiet)
      else (WalkCas(w, curr, Cell(m, curr)), Quiet)
  }

  /** The loop body after curr.state.Load() returned v. */
  function Visit<T>(w: Walk<T>, curr: nat, v: Ptr<T>): PC<T> {
    match w
    case SetW(index, p, i) =>
      if v.Nil? then WalkAdvance(w, curr)
      else if i != index then WalkAdvance(SetW(index, p, i + 1), curr)
      else WalkCas(w, curr, v)
    case RemoveAtW(index, i) =>
      if v.Nil? then WalkAdvance(w, curr)
      else if i != index then WalkAdvance(RemoveAtW(index, i + 1), curr)
      else WalkCas(w, curr, v)
    case FirstW => if v.Nil? then WalkAdvance(w, curr) else WalkCas(w, curr, v)
    case LastW(_, _) => if v.Nil? then WalkAdvance(w, curr) else WalkAdvance(LastW(curr, v), curr)
    case MatchW(matches) =>
      if v.Nil? || !matches(v.value) then WalkAdvance(w, curr) else WalkCas(w, curr, v)
    case FuncW(pred, _) =>
      if v.Nil? || !pred(v.value) then WalkAdvance(w, curr) else WalkCas(w, curr, v)
    case SliceW(acc, seen, hits) =>
      if v.Nil? then WalkAdvance(SliceW(acc, seen + [curr], hits), curr)
      else WalkAdvance(SliceW(acc + [v.value], seen + [curr], hits + [(curr, v)]), curr)
  }

  /** The loop ran off the end of the chain. */
  function WalkEnd<T>(w: Walk<T>): PC<T> {
    match w
    case SetW(_, _, _) => Done(Missing)
    case RemoveAtW(_, _) => Done(Missing)
    case FirstW => Done(Missing)
    case LastW(last, lastVal) => if last == NIL then Done(Missing) else WalkCas(w, last, lastVal)
    case MatchW(_) => Done(Ok(false))
    case FuncW(_, removed) => Done(Count(removed))
    case SliceW(acc, _, _) => Done(Slice(acc))
  }

  function Replacement<T>(w: Walk<T>): Ptr<T> {
    if w.SetW? then w.box else Nil
  }

  function CasWon<T>(w: Walk<T>, curr: nat, v: Ptr<T>): PC<T> {
    match w
    case MatchW(_) => Done(Ok(true))
    case FuncW(pred, removed) => WalkAdvance(FuncW(pred, removed + 1), curr)
    case _ => if v.Nil? then Done(Missing) else Done(Got(v.value))
  }

  /** Variables as they are at the label the loop continues from. */
  function Restart<T>(w: Walk<T>): Walk<T> {
    match w
    case SetW(index, p, _) => SetW(index, p, 0)
    case RemoveAtW(index, _) => RemoveAtW(index, 0)
    case LastW(_, _) => LastW(NIL, Nil)
    case _ => w
  }

  function CasLost<T>(w: Walk<T>, curr: nat): PC<T> {
    match w
    case SetW(_, _, _) => WalkReload(w, curr)
    case RemoveAtW(_, _) => WalkHead(Restart(w))
    case LastW(_, _) => WalkHead(Restart(w))
    case FuncW(_, _) => WalkAdvance(w, curr)
    case _ => WalkTest(w, curr)
  }

  // ---------- Calling an operation ----------

  /** k consecutive addresses. */
  function Range(from: nat, k: nat): (r: seq<nat>)
    ensures |r| == k && forall i :: 0 <= i < k ==> r[i] == from + i
    ensures forall a :: a in r <==> from <= a < from + k
  {
    var r := seq(k, i => from + i);
    assert forall a {:trigger a in r} :: from <= a < from + k ==> r[a - from] == a;
    r
  }

  /** newLFNode for each element, chained privately; the last node points to end. */
  function Build<T>(m: Mem<T>, elems: seq<T>, end: nat): Mem<T> {
    var k := |elems|;
    Mem(m.next + (map n | n in Range(m.brk, k) :: if n + 1 < m.brk + k then n + 1 else end),
        m.cell + (map n | n in Range(m.brk, k) :: Ref(n + k, elems[n - m.brk])),
        m.brk + 2 * k)
  }

  /** Memory after the private part of a call, which runs before its first shared access. */
  function CallMem<T>(m: Mem<T>, op: Op<T>): Mem<T> {
    match op
    case Append(elems) => Build(m, elems, TAIL)
    case Insert(index, e) => if index < 0 then m else Build(m, [e], NIL)
    case SetAt(index, e) => if index < 0 then m else m.(brk := m.brk + 1)
    case _ => m
  }

  function CallPC<T>(m: Mem<T>, op: Op<T>): PC<T> {
    match op
    case Append(elems) => if elems == [] then Done(Unit) else AppendHead(Range(m.brk, |elems|))
    case Insert(index, _) =>
      if index < 0 then Done(Ok(false))
      else if index == 0 then HeadLoad(m.brk)
      else InsertHead(m.brk, index)
    case Clear => ClearLoad
    case SetAt(index, e) => if index < 0 then Done(Missing) else WalkHead(SetW(index, Ref(m.brk, e), 0))
    case RemoveAt(index) => if index < 0 then Done(Missing) else WalkHead(RemoveAtW(index, 0))
    case RemoveFirst => WalkHead(FirstW)
    case RemoveLast => WalkHead(LastW(NIL, Nil))
    case Remove(matches) => WalkHead(MatchW(matches))
    case RemoveFunc(pred) => WalkHead(FuncW(pred, 0))
    case ToSlice => WalkHead(SliceW([], [], []))
  }

  // ---------- History ----------

  /** What a successful CAS does to the sequence of live elements. */
  datatype Act<T> =
    | AppendAct(vals: seq<T>)
    | InsertAct(pos: nat, val: T)
    | SetAct(pos: nat, taken: Ptr<T>, box: Ptr<T>)
    | RemoveAct(pos: nat, taken: Ptr<T>)
    | ClearAct

  /** A linearized effect: the operation, the step at which it was called (which also
      identifies the call), the thread, its linearization point and what it did. */
  datatype Entry<!T> = Entry(op: Op<T>, call: nat, tid: nat, point: nat, act: Act<T>)

  /** A finished call; `made` is the number of its entries. */
  datatype Call<!T> = Call(op: Op<T>, res: Result<T>, made: nat, end: nat)

  /** A thread, with the call it is executing, how many effects that call has had, and the
      state of the chain when it last loaded head.next: the index `gen` of the generation
      that was attached, its nodes `snap`, and the step number `since`. */
  datatype Thread<!T> = Thread(pc: PC<T>, op: Op<T>, call: nat, made: nat, gen: nat, snap: seq<nat>, since: nat)

  /** A generation is the chain that hangs off head between two Clears. chains[g] lists the
      nodes published into generation g in chain order, the last one being attached;
      logs[g] lists the effects on it; cuts[g] is the Clear that detached it. home gives
      the generation of a published node, owner the thread that allocated an address and
      boxes the element put into a box.
      spent gives the log position of the effect that consumed a pointer, and site the
      node a pointer was stored in. */
  datatype State<!T> = State(
    mem: Mem<T>,
    threads: map<nat, Thread<T>>,
    clock: nat,
    home: map<nat, nat>,
    owner: map<nat, nat>,
    boxes: map<nat, T>,
    site: map<nat, nat>,
    spent: map<nat, (nat, nat)>,
    chains: seq<seq<nat>>,
    logs: seq<seq<Entry<T>>>,
    cuts: seq<Entry<T>>,
    ended: map<nat, Call<T>>,
    wins: nat,
    fails: nat)

  function IndexOf(c: seq<nat>, n: nat): (i: nat)
    ensures i <= |c|
    ensures i < |c| ==> c[i] == n
    ensures i < |c| <==> n in c
    ensures forall j :: 0 <= j < i ==> c[j] != n
  {
    if c == [] then 0 else if c[0] == n then 0 else 1 + IndexOf(c[1..], n)
  }

  /** The elements of the live nodes among ns, in order. */
  function Live<T>(m: Mem<T>, ns: seq<nat>): seq<T> {
    if ns == [] then []
    else Live(m, ns[..|ns| - 1]) + Shown(Cell(m, ns[|ns| - 1]))
  }

  function Shown<T>(p: Ptr<T>): seq<T> {
    if p.Nil? then [] else [p.value]
  }

  function Last<T>(s: State<T>): int { |s.chains| - 1 }

  function Chain<T>(s: State<T>, g: nat): seq<nat> {
    if g < |s.chains| then s.chains[g] else []
  }

  /** Generation and index at which a CAS of pred.next by th puts new nodes. */
  function SpotGen<T>(s: State<T>, th: Thread<T>, pred: nat): nat {
    if pred == HEAD && 0 <= Last(s) then Last(s) else th.gen
  }

  function Spot<T>(s: State<T>, th: Thread<T>, pred: nat): (i: nat)
    ensures i <= |Chain(s, SpotGen(s, th, pred))|
  {
    if pred == HEAD then 0
    else
      var c := Chain(s, SpotGen(s, th, pred));
      var i := IndexOf(c, pred);
      if i < |c| then i + 1 else i
  }

  function Spliced(c: seq<nat>, i: nat, b: seq<nat>): seq<nat>
    requires i <= |c|
  {
    c[..i] + b + c[i..]
  }

  /** Linearization point of an effect on generation g: now, or, if g is already detached,
      the moment of the Clear that detached it. */
  function Point<T>(s: State<T>, g: nat): nat {
    if g < |s.cuts| then s.cuts[g].point else s.clock
  }

  function Mark<T>(s: State<T>, t: nat, th: Thread<T>, g: nat, act: Act<T>): Entry<T> {
    Entry(th.op, th.call, t, Point(s, g), act)
  }

  function PublishAct<T>(s: State<T>, th: Thread<T>, pred: nat): Act<T> {
    match th.op
    case Insert(_, e) => InsertAct(|Live(s.mem, Chain(s, SpotGen(s, th, pred))[..Spot(s, th, pred)])|, e)
    case Append(elems) => AppendAct(elems)
    case _ => AppendAct([])
  }

  function SwapAct<T>(s: State<T>, th: Thread<T>, node: nat, box: Ptr<T>): Act<T> {
    var c := Chain(s, th.gen);
    var pos := |Live(s.mem, c[..IndexOf(c, node)])|;
    if th.op.SetAt? then SetAct(pos, Cell(s.mem, node), box) else RemoveAct(pos, Cell(s.mem, node))
  }

  function Put<X>(xs: seq<X>, g: nat, x: X): (r: seq<X>)
    ensures |r| == |xs|
  {
    if g < |xs| then xs[g := x] else xs
  }

  function Logged<T>(logs: seq<seq<Entry<T>>>, g: nat, e: Entry<T>): (r: seq<seq<Entry<T>>>)
    ensures |r| == |logs|
  {
    if g < |logs| then logs[g := logs[g] + [e]] else logs
  }

  /** Memory after an effect. */
  function Write<T>(m: Mem<T>, e: Effect<T>): Mem<T> {
    match e
    case Link(n, to) => m.(next := m.next[n := to])
    case Publish(pred, b) => if b == [] then m else m.(next := m.next[pred := b[0]])
    case Cut => m.(next := m.next[HEAD := TAIL])
    case Swap(n, box) => m.(cell := m.cell[n := box])
    case _ => m
  }

  /** The nodes of b are published into generation g. */
  function Rehomed(home: map<nat, nat>, b: seq<nat>, g: nat): map<nat, nat> {
    home + (map n | n in b :: g)
  }

  function LandHome<T>(s: State<T>, th: Thread<T>, e: Effect<T>): map<nat, nat> {
    match e
    case Publish(pred, b) => var g := SpotGen(s, th, pred); Rehomed(s.home, b, g)
    case _ => s.home
  }

  function LandChains<T>(s: State<T>, th: Thread<T>, e: Effect<T>): (r: seq<seq<nat>>)
    ensures |r| == |s.chains| + if e.Cut? then 1 else 0
  {
    match e
    case Publish(pred, b) =>
      var g := SpotGen(s, th, pred);
      Put(s.chains, g, Spliced(Chain(s, g), Spot(s, th, pred), b))
    case Cut => s.chains + [[]]
    case _ => s.chains
  }

  function LandLogs<T>(s: State<T>, t: nat, th: Thread<T>, e: Effect<T>): (r: seq<seq<Entry<T>>>)
    ensures |r| == |s.logs| + if e.Cut? then 1 else 0
  {
    match e
    case Publish(pred, _) =>
      var g := SpotGen(s, th, pred);
      Logged(s.logs, g, Mark(s, t, th, g, PublishAct(s, th, pred)))
    case Cut => s.logs + [[]]
    case Swap(n, box) => Logged(s.logs, th.gen, Mark(s, t, th, th.gen, SwapAct(s, th, n, box)))
    case _ => s.logs
  }

  function LandSpent<T>(s: State<T>, th: Thread<T>, e: Effect<T>): map<nat, (nat, nat)> {
    match e
    case Swap(n, _) =>
      var was := Cell(s.mem, n);
      if was.Nil? || th.gen >= |s.logs| then s.spent else s.spent[was.addr := (th.gen, |s.logs[th.gen]|)]
    case _ => s.spent
  }

  predicate Counts<T>(e: Effect<T>) { e.Publish? || e.Cut? || e.Swap? }

  /** Memory and history after thread t, in state th, has the effect e. */
  function Land<T>(s: State<T>, t: nat, th: Thread<T>, e: Effect<T>): State<T> {
    s.(mem := Write(s.mem, e),
       home := LandHome(s, th, e),
       chains := LandChains(s, th, e),
       logs := LandLogs(s, t, th, e),
       cuts := if e.Cut? then s.cuts + [Entry(th.op, th.call, t, s.clock, ClearAct)] else s.cuts,
       site := if e.Swap? && e.box.Ref? then s.site[e.box.addr := e.node] else s.site,
       spent := LandSpent(s, th, e),
       wins := if Counts(e) then s.wins + 1 else s.wins,
       fails := if e.Miss? then s.fails + 1 else s.fails)
  }

  predicate Walking<T>(pc: PC<T>) {
    pc.WalkHead? || pc.WalkTest? || pc.WalkAdvance? || pc.WalkCas? || pc.WalkReload?
  }

  /** Program points whose step loads head.next. */
  predicate LoadsHead<T>(pc: PC<T>) {
    pc.AppendHead? || pc.HeadLoad? || pc.InsertHead? || pc.ClearLoad? || pc.WalkHead?
  }

  /** Program points reached after loading head.next in the current round of the loop. */
  predicate UsesGen<T>(pc: PC<T>) {
    !pc.Idle? && !pc.Done? && !LoadsHead(pc)
  }

  /** The thread itself after its step. */
  function Stepped<T>(s: State<T>, th: Thread<T>): Thread<T> {
    var (pc, e) := Turn(s.mem, th.pc);
    var made := if Counts(e) then th.made + 1 else th.made;
    if LoadsHead(th.pc) && 0 <= Last(s)
    then th.(pc := pc, made := made, gen := Last(s), snap := s.chains[Last(s)], since := s.clock)
    else th.(pc := pc, made := made)
  }

  // ---------- Runs ----------

  /** Begin calls an operation, Move executes one atomic access, Finish returns. */
  datatype Label<!T> = Begin(tid: nat, op: Op<T>) | Move(tid: nat) | Finish(tid: nat)

  predicate Can<T>(s: State<T>, l: Label<T>) {
    l.tid in s.threads &&
    match l
    case Begin(t, _) => s.threads[t].pc.Idle?
    case Move(t) => !s.threads[t].pc.Idle? && !s.threads[t].pc.Done?
    case Finish(t) => s.threads[t].pc.Done?
  }

  function Do<T>(s: State<T>, l: Label<T>): State<T>
    requires Can(s, l)
  {
    match l
    case Begin(t, op) => DoBegin(s, t, op)
    case Move(t) => DoMove(s, t)
    case Finish(t) => DoFinish(s, t)
  }

  function DoBegin<T>(s: State<T>, t: nat, op: Op<T>): State<T>
    requires t in s.threads
  {
    var m := CallMem(s.mem, op);
    var got := Range(s.mem.brk, if m.brk >= s.mem.brk then m.brk - s.mem.brk else 0);
    var th := Thread(CallPC(s.mem, op), op, s.clock, 0, s.threads[t].gen, s.threads[t].snap, s.threads[t].since);
    s.(mem := m,
       threads := s.threads[t := th],
       clock := s.clock + 1,
       owner := s.owner + (map a | a in got :: t),
       boxes := s.boxes + NewBoxes(s.mem, op),
       site := s.site + NewSites(s.mem, op))
  }

  function NewBoxes<T>(m: Mem<T>, op: Op<T>): map<nat, T> {
    match op
    case Append(elems) => var r := Range(m.brk + |elems|, |elems|); map a | a in r :: elems[a - m.brk - |elems|]
    case Insert(index, e) => if index < 0 then map[] else map[m.brk + 1 := e]
    case SetAt(index, e) => if index < 0 then map[] else map[m.brk := e]
    case _ => map[]
  }

  /** Where the boxes of the nodes allocated by a call are stored. */
  function NewSites<T>(m: Mem<T>, op: Op<T>): map<nat, nat> {
    match op
    case Append(elems) => var r := Range(m.brk + |elems|, |elems|); map a | a in r :: a - |elems|
    case Insert(index, _) => if index < 0 then map[] else map[m.brk + 1 := m.brk]
    case _ => map[]
  }

  function DoMove<T>(s: State<T>, t: nat): State<T>
    requires t in s.threads
  {
    var th := s.threads[t];
    var s' := Land(s, t, th, Turn(s.mem, th.pc).1);
    s'.(threads := s.threads[t := Stepped(s, th)], clock := s.clock + 1)
  }

  function DoFinish<T>(s: State<T>, t: nat): State<T>
    requires t in s.threads && s.threads[t].pc.Done?
  {
    var th := s.threads[t];
    s.(threads := s.threads[t := th.(pc := Idle)],
       clock := s.clock + 1,
       ended := s.ended[th.call := Call(th.op, th.pc.res, th.made, s.clock)])
  }

  /** NewLockFreeList, with the threads that will use the list. */
  ghost predicate Init<T>(s: State<T>) {
    && s.mem == Mem(map[HEAD := TAIL], map[], TAIL + 1)
    && (forall t :: t in s.threads ==> s.threads[t].pc == Idle && s.threads[t].gen == 0 && s.threads[t].snap == [])
    && s.clock == 0 && s.home == map[] && s.owner == map[] && s.boxes == map[] && s.site == map[] && s.spent == map[]
    && s.chains == [[]] && s.logs == [[]] && s.cuts == [] && s.ended == map[] && s.wins == 0 && s.fails == 0
  }

  /** The states run[0], run[1], ... are passed through by the steps labels[0], labels[1], ... */
  ghost predicate IsRun<T>(run: seq<State<T>>, labels: seq<Label<T>>) {
    && |run| == |labels| + 1
    && Init(run[0])
    && forall i {:trigger labels[i]} :: 0 <= i < |labels| ==>
       Can(run[i], labels[i]) && run[i + 1] == Do(run[i], labels[i])
  }
}
