/**
 Values change hands once. The address of a box determines the element in it, so a CAS that
 compares addresses compares elements; a box sits in at most one node, and once it has been
 taken out, by a removal or a Set, it is never in a node again.
 */
module LockFreePointers {
  import opened LockFreeMachine
  import opened LockFreeShape

  ghost predicate PtrOk<T>(s: State<T>, p: Ptr<T>) {
    p.Ref? ==> p.addr < s.mem.brk && p.addr in s.boxes && s.boxes[p.addr] == p.value
  }

  /** The box in a node. */
  ghost predicate CellOk<T>(s: State<T>, n: nat, p: Ptr<T>) {
    PtrOk(s, p) && (p.Ref? ==> p.addr in s.site && s.site[p.addr] == n && p.addr !in s.spent)
  }

  /** The pointers a walking thread holds; the box of a pending Set is in no node yet. */
  ghost predicate HeldOk<T>(s: State<T>, t: nat, pc: PC<T>) {
    (pc.WalkCas? ==> PtrOk(s, pc.v)) &&
    (Walking(pc) ==>
      match pc.w
      case SetW(_, box, _) =>
        PtrOk(s, box) && box.Ref? && box.addr !in s.site && box.addr !in s.spent && box.addr in s.owner &&
          s.owner[box.addr] == t
      case LastW(_, lastVal) => PtrOk(s, lastVal)
      case _ => true)
  }

  /** The box an effect took out of a node. */
  predicate Takes<T>(a: Act<T>) {
    (a.SetAct? || a.RemoveAct?) && a.taken.Ref?
  }

  ghost predicate SpentOk<T>(s: State<T>) {
    && (forall a :: a in s.spent ==> a < s.mem.brk)
    && forall g, i :: 0 <= g < |s.logs| && 0 <= i < |s.logs[g]| && Takes(s.logs[g][i].act) ==>
         var a := s.logs[g][i].act.taken.addr; a in s.spent && s.spent[a] == (g, i)
  }

  ghost predicate Boxes<T>(s: State<T>) {
    && (forall n :: n in s.mem.cell ==> CellOk(s, n, s.mem.cell[n]))
    && (forall t :: t in s.threads ==> HeldOk(s, t, s.threads[t].pc))
    && (forall a :: a in s.site ==> a < s.mem.brk)
    && (forall a :: a in s.boxes ==> a < s.mem.brk)
    && SpentOk(s)
  }

  /** A CAS on a node's state succeeds only on the very pointer the thread loaded. */
  lemma CasSame<T>(s: State<T>, n: nat, v: Ptr<T>)
    requires Boxes(s) && PtrOk(s, v) && SamePtr(Cell(s.mem, n), v)
    ensures Cell(s.mem, n) == v
  {
    if n in s.mem.cell {
      assert CellOk(s, n, s.mem.cell[n]);
    }
  }

  // ---------- Preservation ----------

  /** What everyone relies on when thread t moves. */
  ghost predicate Calm<T>(s: State<T>, s': State<T>, t: nat) {
    && s.mem.brk <= s'.mem.brk
    && (forall a :: a in s.boxes ==> a in s'.boxes && s'.boxes[a] == s.boxes[a])
    && (forall a :: a in s.owner ==> a in s'.owner && s'.owner[a] == s.owner[a])
    && (forall a :: a in s'.site && a !in s.site && a in s.owner ==> s.owner[a] == t)
    && (forall a :: a in s'.spent && a !in s.spent ==> a in s.site)
  }

  lemma OthersHeld<T>(s: State<T>, s': State<T>, t: nat, u: nat, pc: PC<T>)
    requires Calm(s, s', t) && HeldOk(s, u, pc) && u != t
    ensures HeldOk(s', u, pc)
  {
  }

  lemma SwapCalm<T>(s: State<T>, t: nat, th: Thread<T>, n: nat, box: Ptr<T>)
    requires Boxes(s)
    requires box.Ref? ==> box.addr in s.owner && s.owner[box.addr] == t
    ensures Calm(s, Land(s, t, th, Swap(n, box)), t)
  {
    if n in s.mem.cell {
      assert CellOk(s, n, s.mem.cell[n]);
    }
  }

  lemma SwapCells<T>(s: State<T>, t: nat, th: Thread<T>, n: nat, box: Ptr<T>)
    requires Boxes(s) && Cell(s.mem, n).Ref?
    requires PtrOk(s, box) && (box.Ref? ==> box.addr !in s.site && box.addr !in s.spent)
    ensures var s' := Land(s, t, th, Swap(n, box)); forall k :: k in s'.mem.cell ==> CellOk(s', k, s'.mem.cell[k])
  {
    var s' := Land(s, t, th, Swap(n, box));
    assert CellOk(s, n, s.mem.cell[n]);
    forall k | k in s'.mem.cell
      ensures CellOk(s', k, s'.mem.cell[k])
    {
      if k != n {
        assert CellOk(s, k, s.mem.cell[k]);
      }
    }
  }

  lemma LogSpent<T>(s: State<T>, s': State<T>, g: nat, e: Entry<T>)
    requires SpentOk(s) && g < |s.logs| && s.mem.brk <= s'.mem.brk
    requires s'.logs == s.logs[g := s.logs[g] + [e]]
    requires if Takes(e.act) then e.act.taken.addr !in s.spent && e.act.taken.addr < s.mem.brk &&
                                  s'.spent == s.spent[e.act.taken.addr := (g, |s.logs[g]|)]
             else s'.spent == s.spent
    ensures SpentOk(s')
  {
    forall h, i | 0 <= h < |s'.logs| && 0 <= i < |s'.logs[h]| && Takes(s'.logs[h][i].act)
      ensures var a := s'.logs[h][i].act.taken.addr; a in s'.spent && s'.spent[a] == (h, i)
    {
      if i < |s.logs[h]| {
        assert s'.logs[h][i] == s.logs[h][i];
      }
    }
  }

  lemma SwapBoxes<T>(s: State<T>, t: nat, th: Thread<T>, n: nat, box: Ptr<T>)
    requires Boxes(s) && Cell(s.mem, n).Ref? && th.gen < |s.logs|
    requires PtrOk(s, box) && (box.Ref? ==> box.addr !in s.site && box.addr !in s.spent)
    ensures SpentOk(Land(s, t, th, Swap(n, box)))
  {
    assert CellOk(s, n, s.mem.cell[n]);
    LogSpent(s, Land(s, t, th, Swap(n, box)), th.gen, Mark(s, t, th, th.gen, SwapAct(s, th, n, box)));
  }

  /** The pointers a thread holds after its own step, before the history records it. */
  lemma SelfHeld<T>(s: State<T>, t: nat, th: Thread<T>)
    requires Boxes(s) && HeldOk(s, t, th.pc)
    requires !Turn(s.mem, th.pc).1.Swap?
    ensures HeldOk(s, t, Turn(s.mem, th.pc).0)
  {
    forall n: nat
      ensures PtrOk(s, Cell(s.mem, n))
    {
      if n in s.mem.cell {
        assert CellOk(s, n, s.mem.cell[n]);
      }
    }
    if Walking(th.pc) {
      match th.pc.w
      case SetW(_, _, _) =>
      case LastW(_, _) =>
      case FuncW(_, _) =>
      case _ =>
    }
  }

  lemma SwapWalk<T>(m: Mem<T>, pc: PC<T>)
    requires Turn(m, pc).1.Swap?
    ensures pc.WalkCas? && Turn(m, pc).1 == Swap(pc.curr, Replacement(pc.w)) && SamePtr(Cell(m, pc.curr), pc.v)
    ensures pc.w.SetW? || pc.w.LastW? ==> Turn(m, pc).0.Done?
    ensures Walking(Turn(m, pc).0) ==> Turn(m, pc).0 == WalkAdvance(FuncW(pc.w.pred, pc.w.removed + 1), pc.curr)
  {
  }

  lemma CutSpent<T>(s: State<T>, s': State<T>)
    requires SpentOk(s) && s'.logs == s.logs + [[]] && s'.spent == s.spent && s'.mem.brk == s.mem.brk
    ensures SpentOk(s')
  {
    forall g, i | 0 <= g < |s'.logs| && 0 <= i < |s'.logs[g]| && Takes(s'.logs[g][i].act)
      ensures var a := s'.logs[g][i].act.taken.addr; a in s'.spent && s'.spent[a] == (g, i)
    {
      assert s'.logs[g][i] == s.logs[g][i];
    }
  }

  lemma PublishSpent<T>(s: State<T>, t: nat, th: Thread<T>, pred: nat, b: seq<nat>)
    requires SpentOk(s) && AtPred(s, th, pred) && |s.logs| == |s.chains|
    requires ChainsOk(s.mem, s.home, s.chains)
    ensures SpentOk(Land(s, t, th, Publish(pred, b)))
  {
    var g := SpotGen(s, th, pred);
    SpotIsNext(s, th, pred);
    LogSpent(s, Land(s, t, th, Publish(pred, b)), g, Mark(s, t, th, g, PublishAct(s, th, pred)));
  }

  lemma QuietBoxes<T>(s: State<T>, t: nat, th: Thread<T>, e: Effect<T>)
    requires Boxes(s) && !e.Swap? && EffectOk(s, t, th, e) && |s.logs| == |s.chains|
    requires ChainsOk(s.mem, s.home, s.chains)
    ensures var s' := Land(s, t, th, e);
            && s'.mem.cell == s.mem.cell && s'.mem.brk == s.mem.brk && s'.site == s.site && s'.spent == s.spent
            && SpentOk(s')
  {
    match e
    case Publish(pred, b) => PublishSpent(s, t, th, pred, b);
    case Cut => CutSpent(s, Land(s, t, th, e));
    case _ =>
  }

  lemma QuietLands<T>(s: State<T>, t: nat)
    requires Shape(s) && Boxes(s) && Can(s, Move(t))
    requires !Turn(s.mem, s.threads[t].pc).1.Swap?
    ensures var l := Land(s, t, s.threads[t], Turn(s.mem, s.threads[t].pc).1);
            && SpentOk(l) && l.mem.cell == s.mem.cell && l.mem.brk == s.mem.brk && l.site == s.site &&
               l.spent == s.spent
            && forall n :: n in l.mem.cell ==> CellOk(l, n, l.mem.cell[n])
  {
    var th := s.threads[t];
    var e := Turn(s.mem, th.pc).1;
    TurnEffect(s, t);
    QuietBoxes(s, t, th, e);
    var l := Land(s, t, th, e);
    forall n | n in l.mem.cell
      ensures CellOk(l, n, l.mem.cell[n])
    {
      assert CellOk(s, n, s.mem.cell[n]);
    }
  }

  lemma MoveQuiet<T>(s: State<T>, t: nat)
    requires Shape(s) && Boxes(s) && Can(s, Move(t))
    requires !Turn(s.mem, s.threads[t].pc).1.Swap?
    ensures Boxes(DoMove(s, t))
  {
    var s' := DoMove(s, t);
    var th := s.threads[t];
    var l := Land(s, t, th, Turn(s.mem, th.pc).1);
    QuietLands(s, t);
    forall n | n in s'.mem.cell
      ensures CellOk(s', n, s'.mem.cell[n])
    {
      assert CellOk(l, n, l.mem.cell[n]);
    }
    forall u | u in s'.threads
      ensures HeldOk(s', u, s'.threads[u].pc)
    {
      assert HeldOk(s, u, s.threads[u].pc);
      if u == t {
        SelfHeld(s, t, th);
      }
    }
  }

  /** The pending box of a Set reaches its node exactly when the CAS does. */
  lemma SwapReady<T>(s: State<T>, t: nat)
    requires Boxes(s) && t in s.threads
    requires Turn(s.mem, s.threads[t].pc).1.Swap?
    ensures var e := Turn(s.mem, s.threads[t].pc).1;
            && PtrOk(s, e.box)
            && (e.box.Ref? ==>
               e.box.addr !in s.site && e.box.addr !in s.spent && e.box.addr in s.owner && s.owner[e.box.addr] == t)
  {
    var th := s.threads[t];
    SwapWalk(s.mem, th.pc);
    assert HeldOk(s, t, th.pc);
  }

  lemma SwapLands<T>(s: State<T>, t: nat)
    requires Shape(s) && Boxes(s) && Can(s, Move(t))
    requires Turn(s.mem, s.threads[t].pc).1.Swap?
    ensures var l := Land(s, t, s.threads[t], Turn(s.mem, s.threads[t].pc).1);
            && SpentOk(l) && Calm(s, l, t) && (forall a :: a in l.site ==> a < l.mem.brk)
            && forall n :: n in l.mem.cell ==> CellOk(l, n, l.mem.cell[n])
  {
    var th := s.threads[t];
    var e := Turn(s.mem, th.pc).1;
    TurnEffect(s, t);
    SwapReady(s, t);
    SwapCells(s, t, th, e.node, e.box);
    SwapBoxes(s, t, th, e.node, e.box);
    SwapCalm(s, t, th, e.node, e.box);
  }

  lemma MoveSwap<T>(s: State<T>, t: nat)
    requires Shape(s) && Boxes(s) && Can(s, Move(t))
    requires Turn(s.mem, s.threads[t].pc).1.Swap?
    ensures Boxes(DoMove(s, t))
  {
    var s' := DoMove(s, t);
    var th := s.threads[t];
    var e := Turn(s.mem, th.pc).1;
    var l := Land(s, t, th, e);
    SwapLands(s, t);
    forall n | n in s'.mem.cell
      ensures CellOk(s', n, s'.mem.cell[n])
    {
      assert CellOk(l, n, l.mem.cell[n]);
    }
    forall u | u in s'.threads
      ensures HeldOk(s', u, s'.threads[u].pc)
    {
      if u == t {
        SwapWalk(s.mem, th.pc);
      } else {
        OthersHeld(s, l, t, u, s.threads[u].pc);
      }
    }
  }

  /** The boxes of a call's new nodes are registered, and nothing else changes hands. */
  ghost predicate Registered<T>(s: State<T>, s': State<T>, elems: seq<T>) {
    && s'.spent == s.spent && s.mem.brk <= s'.mem.brk
    && (forall a :: a in s.site ==> a in s'.site && s'.site[a] == s.site[a])
    && (forall a :: a in s.boxes ==> a in s'.boxes && s'.boxes[a] == s.boxes[a])
    && (forall a :: s.mem.brk + |elems| <= a < s.mem.brk + 2 * |elems| ==>
          a in s'.site && s'.site[a] == a - |elems| && a in s'.boxes && s'.boxes[a] == elems[a - |elems| - s.mem.brk])
  }

  lemma BuildCell<T>(s: State<T>, s': State<T>, elems: seq<T>, end: nat, j: nat)
    requires (forall a :: a in s.spent ==> a < s.mem.brk)
    requires Registered(s, s', elems) && s'.mem == Build(s.mem, elems, end) && j < |elems|
    ensures CellOk(s', s.mem.brk + j, Cell(s'.mem, s.mem.brk + j))
  {
    BuildAt(s.mem, elems, end, j);
  }

  lemma KeepCell<T>(s: State<T>, s': State<T>, elems: seq<T>, n: nat, p: Ptr<T>)
    requires CellOk(s, n, p) && Registered(s, s', elems)
    ensures CellOk(s', n, p)
  {
  }

  lemma BuildElsewhere<T>(m: Mem<T>, elems: seq<T>, end: nat, n: nat)
    requires !(m.brk <= n < m.brk + |elems|)
    ensures var m' := Build(m, elems, end); (n in m'.cell <==> n in m.cell) && Cell(m', n) == Cell(m, n)
  {
  }

  lemma CellAfterBuild<T>(s: State<T>, s': State<T>, elems: seq<T>, end: nat, n: nat)
    requires (forall a :: a in s.spent ==> a < s.mem.brk) && (n in s.mem.cell ==> CellOk(s, n, s.mem.cell[n]))
    requires Registered(s, s', elems) && s'.mem == Build(s.mem, elems, end) && n in s'.mem.cell
    ensures CellOk(s', n, Cell(s'.mem, n))
  {
    if s.mem.brk <= n < s.mem.brk + |elems| {
      BuildCell(s, s', elems, end, n - s.mem.brk);
    } else {
      BuildElsewhere(s.mem, elems, end, n);
      KeepCell(s, s', elems, n, Cell(s.mem, n));
    }
  }

  lemma BuildCells<T>(s: State<T>, s': State<T>, elems: seq<T>, end: nat)
    requires (forall a :: a in s.spent ==> a < s.mem.brk)
    requires forall n :: n in s.mem.cell ==> CellOk(s, n, s.mem.cell[n])
    requires Registered(s, s', elems) && s'.mem == Build(s.mem, elems, end)
    ensures forall n :: n in s'.mem.cell ==> CellOk(s', n, s'.mem.cell[n])
  {
    forall n | n in s'.mem.cell
      ensures CellOk(s', n, Cell(s'.mem, n))
    {
      CellAfterBuild(s, s', elems, end, n);
    }
  }

  lemma BeginCalm<T>(s: State<T>, t: nat, op: Op<T>)
    requires Can(s, Begin(t, op)) && s.mem.brk > TAIL
    requires forall a :: a in s.owner || a in s.boxes ==> a < s.mem.brk
    ensures Calm(s, DoBegin(s, t, op), t)
  {
    CallFrame(s.mem, op);
    NewBoxesAt(s.mem, op);
  }

  lemma BeginSet<T>(s: State<T>, t: nat, index: int, e: T)
    requires Boxes(s) && Can(s, Begin(t, SetAt(index, e))) && s.mem.brk > TAIL
    ensures var s' := DoBegin(s, t, SetAt(index, e)); HeldOk(s', t, s'.threads[t].pc)
  {
    BeginOwner(s, t, SetAt(index, e));
  }

  lemma BeginHeld<T>(s: State<T>, t: nat, op: Op<T>)
    requires Boxes(s) && Can(s, Begin(t, op)) && s.mem.brk > TAIL
    ensures var s' := DoBegin(s, t, op); HeldOk(s', t, s'.threads[t].pc)
  {
    if op.SetAt? {
      BeginSet(s, t, op.index, op.elem);
    }
  }

  /** The elements a call allocates nodes for. */
  function NodeElems<T>(op: Op<T>): seq<T> {
    if op.Append? then op.elems else if op.Insert? && op.index >= 0 then [op.elem] else []
  }

  lemma NewBoxesAt<T>(m: Mem<T>, op: Op<T>)
    ensures var es := NodeElems(op); var sites := NewSites(m, op); var boxes := NewBoxes(m, op);
            && (forall a :: a in sites || a in boxes ==> a >= m.brk)
            && (forall a :: m.brk + |es| <= a < m.brk + 2 * |es| ==>
                  a in sites && sites[a] == a - |es| && a in boxes && boxes[a] == es[a - |es| - m.brk])
  {
  }

  lemma BeginRegistered<T>(s: State<T>, t: nat, op: Op<T>)
    requires Boxes(s) && Can(s, Begin(t, op)) && s.mem.brk > TAIL
    ensures Registered(s, DoBegin(s, t, op), NodeElems(op))
  {
    NewBoxesAt(s.mem, op);
    CallFrame(s.mem, op);
  }

  lemma BeginCells<T>(s: State<T>, t: nat, op: Op<T>)
    requires Boxes(s) && Can(s, Begin(t, op)) && s.mem.brk > TAIL
    ensures var s' := DoBegin(s, t, op); forall n :: n in s'.mem.cell ==> CellOk(s', n, s'.mem.cell[n])
  {
    var s' := DoBegin(s, t, op);
    BeginRegistered(s, t, op);
    if op.Append? {
      BuildCells(s, s', op.elems, TAIL);
    } else if op.Insert? && op.index >= 0 {
      BuildCells(s, s', [op.elem], NIL);
    } else {
      forall n | n in s'.mem.cell
        ensures CellOk(s', n, s'.mem.cell[n])
      {
        KeepCell(s, s', [], n, s.mem.cell[n]);
      }
    }
  }

  lemma BeginBounds<T>(s: State<T>, t: nat, op: Op<T>)
    requires Boxes(s) && Can(s, Begin(t, op)) && s.mem.brk > TAIL
    ensures var s' := DoBegin(s, t, op);
            && (forall a :: a in s'.site ==> a < s'.mem.brk)
            && (forall a :: a in s'.boxes ==> a < s'.mem.brk)
            && SpentOk(s')
  {
  }

  lemma BeginBoxes<T>(s: State<T>, t: nat, op: Op<T>)
    requires Shape(s) && Boxes(s) && Can(s, Begin(t, op))
    ensures Boxes(DoBegin(s, t, op))
  {
    var s' := DoBegin(s, t, op);
    BeginCells(s, t, op);
    BeginHeld(s, t, op);
    BeginCalm(s, t, op);
    BeginBounds(s, t, op);
    forall u | u in s'.threads
      ensures HeldOk(s', u, s'.threads[u].pc)
    {
      if u != t {
        OthersHeld(s, s', t, u, s.threads[u].pc);
      }
    }
  }

  lemma DoBoxes<T>(s: State<T>, l: Label<T>)
    requires Shape(s) && Boxes(s) && Can(s, l)
    ensures Boxes(Do(s, l))
  {
    match l
    case Begin(t, op) => BeginBoxes(s, t, op);
    case Move(t) => if Turn(s.mem, s.threads[t].pc).1.Swap? { MoveSwap(s, t); } else { MoveQuiet(s, t); }
    case Finish(t) => FinishBoxes(s, t);
  }

  lemma FinishBoxes<T>(s: State<T>, t: nat)
    requires Boxes(s) && Can(s, Finish(t))
    ensures Boxes(DoFinish(s, t))
  {
    var s' := DoFinish(s, t);
    forall n | n in s'.mem.cell
      ensures CellOk(s', n, s'.mem.cell[n])
    {
      assert CellOk(s, n, s.mem.cell[n]);
    }
    forall u | u in s'.threads
      ensures HeldOk(s', u, s'.threads[u].pc)
    {
      assert HeldOk(s, u, s.threads[u].pc);
    }
  }

  lemma {:induction false} RunBoxes<T>(run: seq<State<T>>, labels: seq<Label<T>>, i: nat)
    requires IsRun(run, labels) && i < |run|
    ensures Boxes(run[i])
  {
    if i > 0 {
      RunBoxes(run, labels, i - 1);
      RunShape(run, labels, i - 1);
      assert Can(run[i - 1], labels[i - 1]);
      DoBoxes(run[i - 1], labels[i - 1]);
    }
  }

  // ---------- Consequences ----------

  /** No two effects of a run consume the same value of a node: what a removal or a Set took
      out was taken by that effect alone. */
  lemma TakenOnce<T>(run: seq<State<T>>, labels: seq<Label<T>>, i: nat, g: nat, j: nat, h: nat, k: nat)
    requires IsRun(run, labels) && i < |run|
    requires g < |run[i].logs| && j < |run[i].logs[g]| && Takes(run[i].logs[g][j].act)
    requires h < |run[i].logs| && k < |run[i].logs[h]| && Takes(run[i].logs[h][k].act)
    requires run[i].logs[g][j].act.taken.addr == run[i].logs[h][k].act.taken.addr
    ensures g == h && j == k
  {
    RunBoxes(run, labels, i);
    var s := run[i];
    assert s.spent[s.logs[g][j].act.taken.addr] == (g, j);
    assert s.spent[s.logs[h][k].act.taken.addr] == (h, k);
  }

  lemma DoStaysDeleted<T>(s: State<T>, l: Label<T>, n: nat)
    requires Shape(s) && Can(s, l) && n < s.mem.brk && Cell(s.mem, n).Nil?
    ensures n < Do(s, l).mem.brk && Cell(Do(s, l).mem, n).Nil?
  {
    match l
    case Begin(t, op) => CallFrame(s.mem, op);
    case Move(t) => TurnEffect(s, t);
    case Finish(t) =>
  }

  /** Deletion is absorbing. */
  lemma {:induction false} DeletedForever<T>(run: seq<State<T>>, labels: seq<Label<T>>, i: nat, j: nat, n: nat)
    requires IsRun(run, labels) && i <= j < |run|
    requires n < run[i].mem.brk && Cell(run[i].mem, n).Nil?
    ensures n < run[j].mem.brk && Cell(run[j].mem, n).Nil?
    decreases j
  {
    if i < j {
      DeletedForever(run, labels, i, j - 1, n);
      RunShape(run, labels, j - 1);
      assert Can(run[j - 1], labels[j - 1]);
      DoStaysDeleted(run[j - 1], labels[j - 1], n);
    }
  }
}
