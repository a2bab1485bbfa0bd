/**
 A thread of the lock-free list that is not interfered with: from the call to the return all
 steps are its own. Then no CAS fails, and the operation does to the live elements, and
 returns, what it does on a sequence; an index counts live elements only.
 */
module LockFreeAlone {
  import opened Common
  import opened LockFreeMachine
  import opened LockFreeShape
  import opened LockFreeReach
  import opened LockFreeContents

  // ---------- The operations on a sequence ----------

  /** What an operation on the elements l returns, and the elements l' it leaves. */
  ghost predicate Outcome<T>(op: Op<T>, l: seq<T>, l': seq<T>, res: Result<T>) {
    match op
    case Append(elems) => res == Unit && l' == l + elems
    case Insert(index, e) =>
      if 0 <= index <= |l| then res == Ok(true) && l' == l[..index] + [e] + l[index..] else res == Ok(false) && l' == l
    case Clear => res == Unit && l' == []
    case SetAt(index, e) =>
      if 0 <= index < |l| then res == Got(l[index]) && l' == l[index := e] else res == Missing && l' == l
    case RemoveAt(index) =>
      if 0 <= index < |l| then res == Got(l[index]) && l' == l[..index] + l[index + 1..] else res == Missing && l' == l
    case RemoveFirst => if l == [] then res == Missing && l' == l else res == Got(l[0]) && l' == l[1..]
    case RemoveLast =>
      if l == [] then res == Missing && l' == l else res == Got(l[|l| - 1]) && l' == l[..|l| - 1]
    case Remove(matches) =>
      if NoneMatches(l, matches) then res == Ok(false) && l' == l
      else res == Ok(true) && exists i :: FirstMatch(l, i, matches) && l' == l[..i] + l[i + 1..]
    case RemoveFunc(pred) => l' == Rejected(l, pred) && res == Count(|l| - |l'|)
    case ToSlice => res == Slice(l) && l' == l
  }

  ghost predicate NoneMatches<T>(l: seq<T>, matches: T -> bool) {
    forall i :: 0 <= i < |l| ==> !matches(l[i])
  }

  ghost predicate FirstMatch<T>(l: seq<T>, i: int, matches: T -> bool) {
    0 <= i < |l| && matches(l[i]) && NoneMatches(l[..i], matches)
  }

  // ---------- Places in the chain ----------

  /** The live elements before node n, and up to and including it. */
  function LiveBefore<T>(m: Mem<T>, c: seq<nat>, n: nat): seq<T> {
    Live(m, c[..IndexOf(c, n)])
  }

  function Upto<T>(m: Mem<T>, c: seq<nat>, n: nat): seq<T>
    requires n in c
  {
    Live(m, c[..IndexOf(c, n) + 1])
  }

  lemma UptoIs<T>(m: Mem<T>, c: seq<nat>, n: nat)
    requires n in c
    ensures Upto(m, c, n) == LiveBefore(m, c, n) + Shown(Cell(m, n))
  {
    var i := IndexOf(c, n);
    assert c[..i + 1] == c[..i] + [n];
    LiveStep(m, c[..i], n);
  }

  /** Past one node is before the next. */
  lemma NextBefore<T>(m: Mem<T>, home: map<nat, nat>, g: nat, c: seq<nat>, n: nat)
    requires ChainOk(m, home, g, c) && n in c
    ensures LiveBefore(m, c, Next(m, n)) == Upto(m, c, n)
  {
    var i := IndexOf(c, n);
    assert Next(m, c[i]) == At(c, i + 1);
    if i + 1 < |c| {
      IndexUnique(c, i + 1);
    } else {
      assert TAIL !in c;
    }
  }

  lemma FirstBefore<T>(m: Mem<T>, home: map<nat, nat>, g: nat, c: seq<nat>)
    requires ChainOk(m, home, g, c)
    ensures LiveBefore(m, c, At(c, 0)) == []
  {
    if c != [] {
      IndexUnique(c, 0);
    }
  }

  lemma TailBefore<T>(m: Mem<T>, home: map<nat, nat>, g: nat, c: seq<nat>)
    requires ChainOk(m, home, g, c)
    ensures LiveBefore(m, c, TAIL) == Live(m, c)
  {
    assert TAIL !in c;
    assert c[..|c|] == c;
  }

  /** What is live before a live node, its element, and the rest. */
  lemma LiveAround<T>(m: Mem<T>, c: seq<nat>, n: nat)
    requires n in c && Cell(m, n).Ref?
    ensures var l, i := Live(m, c), |LiveBefore(m, c, n)|;
            i < |l| && l[i] == Cell(m, n).value && l[..i] == LiveBefore(m, c, n) && l[..i + 1] == Upto(m, c, n)
  {
    var k := IndexOf(c, n);
    LiveSplit(m, c, k);
    UptoIs(m, c, n);
    var a, b := Live(m, c[..k]), Live(m, c[k + 1..]);
    assert a + [Cell(m, n).value] + b == Live(m, c);
  }

  // ---------- What a thread alone knows ----------

  /** The loop has passed the live elements `seen`, and the list held l when the call began. */
  ghost predicate Passed<T>(m: Mem<T>, c: seq<nat>, w: Walk<T>, seen: seq<T>, l: seq<T>) {
    match w
    case SetW(_, _, i) => Live(m, c) == l && i == |seen|
    case RemoveAtW(_, i) => Live(m, c) == l && i == |seen|
    case FirstW => Live(m, c) == l && seen == []
    case LastW(last, lastVal) =>
      && Live(m, c) == l
      && if last == NIL then seen == []
         else last in c && lastVal == Cell(m, last) && |LiveBefore(m, c, last)| + 1 == |seen|
    case MatchW(matches) => Live(m, c) == l && NoneMatches(seen, matches)
    case FuncW(pred, removed) => Filtered(Live(m, c), seen, l, pred, removed)
    case SliceW(acc, _, _) => Live(m, c) == l && acc == seen
  }

  /** RemoveFunc has filtered what it has passed, and the rest is as it was. */
  ghost predicate Filtered<T>(now: seq<T>, seen: seq<T>, l: seq<T>, pred: T -> bool, removed: int) {
    && seen <= now && removed + |now| == |l|
    && Rejected(l, pred) == seen + Rejected(now[|seen|..], pred)
  }

  /** The CAS a walk is about to do is on the right node. */
  ghost predicate Aimed<T>(m: Mem<T>, c: seq<nat>, w: Walk<T>, n: nat, l: seq<T>) {
    match w
    case SetW(index, _, _) => Live(m, c) == l && |LiveBefore(m, c, n)| == index
    case RemoveAtW(index, _) => Live(m, c) == l && |LiveBefore(m, c, n)| == index
    case FirstW => Live(m, c) == l && LiveBefore(m, c, n) == []
    case LastW(_, _) => Live(m, c) == l && |LiveBefore(m, c, n)| + 1 == |l|
    case MatchW(matches) => Live(m, c) == l && NoneMatches(LiveBefore(m, c, n), matches)
    case FuncW(pred, removed) => Filtered(Live(m, c), LiveBefore(m, c, n), l, pred, removed)
    case SliceW(_, _, _) => false
  }

  ghost predicate Knows<T>(m: Mem<T>, c: seq<nat>, op: Op<T>, pc: PC<T>, l: seq<T>) {
    match pc
    case Idle => false
    case Done(res) => Outcome(op, l, Live(m, c), res)
    case AppendHead(_) => Live(m, c) == l
    case AppendWalk(_, pred, curr) => Live(m, c) == l && curr == Next(m, pred)
    case HeadLoad(_) => Live(m, c) == l
    case HeadStore(_, first) => Live(m, c) == l && first == Next(m, HEAD)
    case HeadCas(_, first) => Live(m, c) == l && first == Next(m, HEAD)
    case InsertHead(_, _) => Live(m, c) == l
    case InsertTest(_, _, _, curr, i) => Live(m, c) == l && i == |LiveBefore(m, c, curr)|
    case InsertAdvance(_, _, pred, i) => Live(m, c) == l && pred in c && i == |Upto(m, c, pred)|
    case InsertNext(_, index, pred) => Live(m, c) == l && pred in c && index == |Upto(m, c, pred)|
    case InsertStore(_, index, pred, succ) =>
      Live(m, c) == l && pred in c && index == |Upto(m, c, pred)| && succ == Next(m, pred)
    case InsertCas(_, index, pred, succ) =>
      Live(m, c) == l && pred in c && index == |Upto(m, c, pred)| && succ == Next(m, pred)
    case ClearLoad => Live(m, c) == l
    case ClearCas(first) => first == Next(m, HEAD)
    case WalkHead(w) => Passed(m, c, w, [], l)
    case WalkTest(w, curr) => Passed(m, c, w, LiveBefore(m, c, curr), l)
    case WalkAdvance(w, curr) => curr in c && Passed(m, c, w, Upto(m, c, curr), l)
    case WalkCas(w, curr, v) => curr in c && v == Cell(m, curr) && Aimed(m, c, w, curr, l)
    case WalkReload(_, _) => false
  }

  /** The live elements attached to head. */
  ghost function Attached<T>(s: State<T>): seq<T> {
    Live(s.mem, Chain(s, if Last(s) < 0 then 0 else Last(s)))
  }

  /** What is known of memory, attached chain and program point. */
  type Facts<!T> = (Mem<T>, seq<nat>, PC<T>) -> bool

  ghost function Knowing<T>(op: Op<T>, l: seq<T>): Facts<T> {
    (m: Mem<T>, c: seq<nat>, pc: PC<T>) => Knows(m, c, op, pc, l)
  }

  /** The facts hold for the thread, which is on the attached chain once it has loaded head. */
  ghost predicate Alone<T>(s: State<T>, th: Thread<T>, facts: Facts<T>) {
    && |s.chains| > 0
    && (LoadsHead(th.pc) || th.pc.Done? || th.gen == Last(s))
    && facts(s.mem, s.chains[Last(s)], th.pc)
  }

  // ---------- Quiet steps ----------

  /** A walk comes to a dead node: nothing to pass. */
  lemma DeadKnows<T>(m: Mem<T>, c: seq<nat>, op: Op<T>, w: Walk<T>, n: nat, l: seq<T>)
    requires n in c && Passed(m, c, w, LiveBefore(m, c, n), l) && Cell(m, n).Nil?
    ensures Knows(m, c, op, Visit(w, n, Cell(m, n)), l)
  {
    UptoIs(m, c, n);
    assert Upto(m, c, n) == LiveBefore(m, c, n);
  }

  /** A walk comes to a live node: it is the one for the CAS, or one more element is passed. */
  lemma LiveKnows<T>(m: Mem<T>, c: seq<nat>, op: Op<T>, w: Walk<T>, n: nat, l: seq<T>)
    requires n in c && n != NIL && Passed(m, c, w, LiveBefore(m, c, n), l) && Cell(m, n).Ref?
    ensures Knows(m, c, op, Visit(w, n, Cell(m, n)), l)
  {
    UptoIs(m, c, n);
    LiveAround(m, c, n);
    var seen, v := LiveBefore(m, c, n), Cell(m, n).value;
    assert Upto(m, c, n) == seen + [v];
    if w.FuncW? {
      FuncKnows(m, c, op, w, n, l);
    } else if w.LastW? {
      assert |LiveBefore(m, c, n)| + 1 == |Upto(m, c, n)|;
    }
  }

  lemma FuncKnows<T>(m: Mem<T>, c: seq<nat>, op: Op<T>, w: Walk<T>, n: nat, l: seq<T>)
    requires n in c && w.FuncW? && Passed(m, c, w, LiveBefore(m, c, n), l) && Cell(m, n).Ref?
    ensures Knows(m, c, op, Visit(w, n, Cell(m, n)), l)
  {
    LiveAround(m, c, n);
    if !w.pred(Cell(m, n).value) {
      FilterKeeps(Live(m, c), |LiveBefore(m, c, n)|, l, w.pred, w.removed);
    }
  }

  lemma {:induction false} RejectedHead<T>(s: seq<T>, n: nat, p: T -> bool)
    requires 0 < n <= |s|
    ensures RejectedIn(s, n, p) == (if p(s[0]) then [] else [s[0]]) + RejectedIn(s[1..], n - 1, p)
  {
    if n > 1 {
      RejectedHead(s, n - 1, p);
      assert s[1..][n - 2] == s[n - 1];
    }
  }

  lemma FilterKeeps<T>(now: seq<T>, i: nat, l: seq<T>, pred: T -> bool, removed: int)
    requires i < |now| && Filtered(now, now[..i], l, pred, removed) && !pred(now[i])
    ensures Filtered(now, now[..i + 1], l, pred, removed)
  {
    var rest := now[i..];
    RejectedHead(rest, |rest|, pred);
    assert rest[1..] == now[i + 1..];
    assert now[..i] + [now[i]] == now[..i + 1];
  }

  lemma FilterDrops<T>(now: seq<T>, i: nat, l: seq<T>, pred: T -> bool, removed: int)
    requires i < |now| && Filtered(now, now[..i], l, pred, removed) && pred(now[i])
    ensures Filtered(now[..i] + now[i + 1..], now[..i], l, pred, removed + 1)
  {
    var rest := now[i..];
    RejectedHead(rest, |rest|, pred);
    assert rest[1..] == now[i + 1..];
    assert (now[..i] + now[i + 1..])[i..] == now[i + 1..];
  }

  /** A walk ends: everything has been passed. */
  lemma EndKnows<T>(m: Mem<T>, c: seq<nat>, op: Op<T>, w: Walk<T>, l: seq<T>)
    requires Passed(m, c, w, Live(m, c), l)
    requires match w
             case SetW(index, _, i) => op.SetAt? && op.index == index && i <= index
             case RemoveAtW(index, i) => op.RemoveAt? && op.index == index && i <= index
             case FirstW => op.RemoveFirst?
             case LastW(_, _) => op.RemoveLast?
             case MatchW(matches) => op.Remove? && op.matches == matches
             case FuncW(pred, _) => op.RemoveFunc? && op.pred == pred
             case SliceW(_, _, _) => op.ToSlice?
    ensures Knows(m, c, op, WalkEnd(w), l)
  {
    if w.FuncW? {
      var none: seq<T> := [];
      assert Live(m, c)[|Live(m, c)|..] == none;
      assert Rejected(none, w.pred) == none;
    }
  }

  // ---------- Effects ----------

  /** The walk belongs to the operation, as every walk does. */
  ghost predicate WalkOf<T>(op: Op<T>, w: Walk<T>) {
    match w
    case SetW(index, box, i) => op.SetAt? && op.index == index && i <= index && box.Ref? && box.value == op.elem
    case RemoveAtW(index, i) => op.RemoveAt? && op.index == index && i <= index
    case FirstW => op.RemoveFirst?
    case LastW(_, _) => op.RemoveLast?
    case MatchW(matches) => op.Remove? && op.matches == matches
    case FuncW(pred, _) => op.RemoveFunc? && op.pred == pred
    case SliceW(_, _, _) => op.ToSlice?
  }

  lemma CellWritten<T>(m: Mem<T>, c: seq<nat>, n: nat, box: Ptr<T>)
    requires NoDup(c) && n in c
    ensures var m' := m.(cell := m.cell[n := box]); LiveBefore(m', c, n) == LiveBefore(m, c, n)
  {
    LiveFrame(m, m.(cell := m.cell[n := box]), c[..IndexOf(c, n)]);
  }

  /** The CAS of a walk: exactly the element aimed at is taken or replaced. */
  lemma SwapKnows<T>(m: Mem<T>, c: seq<nat>, op: Op<T>, w: Walk<T>, n: nat, l: seq<T>)
    requires NoDup(c) && n in c && Cell(m, n).Ref? && Aimed(m, c, w, n, l) && WalkOf(op, w)
    requires w.MatchW? ==> w.matches(Cell(m, n).value)
    requires w.FuncW? ==> w.pred(Cell(m, n).value)
    ensures Knows(m.(cell := m.cell[n := Replacement(w)]), c, op, CasWon(w, n, Cell(m, n)), l)
  {
    var m' := m.(cell := m.cell[n := Replacement(w)]);
    var now, i, v := Live(m, c), |LiveBefore(m, c, n)|, Cell(m, n).value;
    SwapApplies(m, c, n, Replacement(w), w.SetW?);
    LiveAround(m, c, n);
    if w.SetW? {
      assert Live(m', c) == now[i := w.box.value];
    } else {
      assert Live(m', c) == now[..i] + now[i + 1..];
      if w.FuncW? {
        FilterDrops(now, i, l, w.pred, w.removed);
        CellWritten(m, c, n, Nil);
        UptoIs(m', c, n);
        assert Upto(m', c, n) == now[..i];
      } else if w.MatchW? {
        assert FirstMatch(l, i, w.matches) && Live(m', c) == l[..i] + l[i + 1..];
      }
    }
  }

  /** The CAS of an insert after pred. */
  lemma InsertKnows<T>(m: Mem<T>, c: seq<nat>, index: nat, pred: nat, n: nat, e: T, l: seq<T>)
    requires pred in c && Live(m, c) == l && index == |Upto(m, c, pred)| && Live(m, [n]) == [e]
    ensures index <= |l| && Live(m, Spliced(c, IndexOf(c, pred) + 1, [n])) == l[..index] + [e] + l[index..]
  {
    PublishApplies(m, c, IndexOf(c, pred) + 1, [n], e);
  }

  lemma HeadKnows<T>(m: Mem<T>, c: seq<nat>, n: nat, e: T, l: seq<T>)
    requires Live(m, c) == l && Live(m, [n]) == [e]
    ensures Live(m, Spliced(c, 0, [n])) == l[..0] + [e] + l[0..]
  {
    PublishApplies(m, c, 0, [n], e);
    assert Live(m, c[..0]) == [];
  }

  /** Storing the successor in a private node changes nothing in the chain. */
  lemma LinkFrame<T>(m: Mem<T>, c: seq<nat>, n: nat, to: nat)
    requires n !in c
    ensures var m' := Write(m, Link(n, to));
            && Live(m', c) == Live(m, c)
            && forall p :: p in c ==> Next(m', p) == Next(m, p) && Upto(m', c, p) == Upto(m, c, p)
  {
    var m' := Write(m, Link(n, to));
    LiveFrame(m, m', c);
    forall p | p in c
      ensures Upto(m', c, p) == Upto(m, c, p)
    {
      LiveFrame(m, m', c[..IndexOf(c, p) + 1]);
    }
  }

  // ---------- Steps ----------

  ghost predicate AttachedChain<T>(m: Mem<T>, home: map<nat, nat>, g: nat, c: seq<nat>) {
    ChainOk(m, home, g, c) && Next(m, HEAD) == At(c, 0)
  }

  predicate OnChain(c: seq<nat>, n: nat) { n == TAIL || n in c }

  ghost predicate PrivateNode<T>(m: Mem<T>, c: seq<nat>, n: nat, e: T) {
    n > TAIL && n !in c && Live(m, [n]) == [e]
  }

  /** Program point and operation fit, and the nodes are on the attached chain or private. */
  ghost predicate Fit<T>(m: Mem<T>, c: seq<nat>, op: Op<T>, pc: PC<T>) {
    match pc
    case Idle => false
    case Done(_) => false
    case AppendHead(b) => op.Append? && Live(m, b) == op.elems
    case AppendWalk(b, pred, curr) =>
      op.Append? && Live(m, b) == op.elems && (pred == HEAD || pred in c) && OnChain(c, curr) && b != []
    case HeadLoad(n) => op.Insert? && op.index == 0 && PrivateNode(m, c, n, op.elem)
    case HeadStore(n, _) => op.Insert? && op.index == 0 && PrivateNode(m, c, n, op.elem)
    case HeadCas(n, _) => op.Insert? && op.index == 0 && PrivateNode(m, c, n, op.elem)
    case InsertHead(n, index) => op.Insert? && op.index == index > 0 && PrivateNode(m, c, n, op.elem)
    case InsertTest(n, index, _, curr, i) =>
      op.Insert? && op.index == index > 0 && PrivateNode(m, c, n, op.elem) && OnChain(c, curr) && i < index
    case InsertAdvance(n, index, pred, i) => op.Insert? && op.index == index > 0 && PrivateNode(m, c, n, op.elem)
    case InsertNext(n, index, pred) => op.Insert? && op.index == index > 0 && PrivateNode(m, c, n, op.elem)
    case InsertStore(n, index, pred, _) => op.Insert? && op.index == index > 0 && PrivateNode(m, c, n, op.elem)
    case InsertCas(n, index, pred, _) => op.Insert? && op.index == index > 0 && PrivateNode(m, c, n, op.elem)
    case ClearLoad => op.Clear?
    case ClearCas(_) => op.Clear?
    case WalkHead(w) => WalkOf(op, w)
    case WalkTest(w, curr) => WalkOf(op, w) && OnChain(c, curr)
    case WalkAdvance(w, curr) => WalkOf(op, w)
    case WalkCas(w, curr, v) =>
      && WalkOf(op, w) && v.Ref?
      && (w.MatchW? ==> w.matches(v.value)) && (w.FuncW? ==> w.pred(v.value))
    case WalkReload(_, _) => false
  }

  /** The attached chain after an effect of a thread that is on it. */
  function ChainAfter<T>(c: seq<nat>, e: Effect<T>): seq<nat> {
    match e
    case Publish(pred, b) =>
      var i := if pred == HEAD then 0 else IndexOf(c, pred) + 1;
      if i <= |c| then Spliced(c, i, b) else c
    case Cut => []
    case _ => c
  }

  /** The step at pc keeps what is known, and it is not a failed CAS. */
  ghost predicate GoesOn<T>(m: Mem<T>, c: seq<nat>, op: Op<T>, pc: PC<T>, l: seq<T>) {
    var (pc', e) := Turn(m, pc);
    !e.Miss? && Knows(Write(m, e), ChainAfter(c, e), op, pc', l)
  }

  lemma StrideGoesOn<T>(m: Mem<T>, home: map<nat, nat>, g: nat, c: seq<nat>, op: Op<T>, pc: PC<T>, l: seq<T>)
    requires AttachedChain(m, home, g, c) && Knows(m, c, op, pc, l) && (pc.WalkHead? || pc.WalkAdvance?)
    ensures GoesOn(m, c, op, pc, l)
  {
    if pc.WalkHead? {
      FirstBefore(m, home, g, c);
    } else {
      NextBefore(m, home, g, c, pc.curr);
    }
  }

  lemma TestGoesOn<T>(m: Mem<T>, home: map<nat, nat>, g: nat, c: seq<nat>, op: Op<T>, pc: PC<T>, l: seq<T>)
    requires AttachedChain(m, home, g, c) && Fit(m, c, op, pc) && Knows(m, c, op, pc, l) && pc.WalkTest?
    ensures GoesOn(m, c, op, pc, l)
  {
    var w, curr := pc.w, pc.curr;
    if curr == TAIL {
      TailBefore(m, home, g, c);
      EndKnows(m, c, op, w, l);
    } else if Cell(m, curr).Nil? {
      DeadKnows(m, c, op, w, curr, l);
    } else {
      LiveKnows(m, c, op, w, curr, l);
    }
  }

  lemma CasTurn<T>(m: Mem<T>, w: Walk<T>, n: nat)
    requires Cell(m, n).Ref?
    ensures Turn(m, WalkCas(w, n, Cell(m, n))) == (CasWon(w, n, Cell(m, n)), Swap(n, Replacement(w)))
  {
  }

  lemma CasGoesOn<T>(m: Mem<T>, c: seq<nat>, op: Op<T>, w: Walk<T>, n: nat, l: seq<T>)
    requires NoDup(c) && n in c && Cell(m, n).Ref? && Aimed(m, c, w, n, l) && WalkOf(op, w)
    requires w.MatchW? ==> w.matches(Cell(m, n).value)
    requires w.FuncW? ==> w.pred(Cell(m, n).value)
    ensures GoesOn(m, c, op, WalkCas(w, n, Cell(m, n)), l)
  {
    CasTurn(m, w, n);
    SwapKnows(m, c, op, w, n, l);
    assert Write(m, Swap(n, Replacement(w))) == m.(cell := m.cell[n := Replacement(w)]);
  }

  lemma AppendGoesOn<T>(m: Mem<T>, home: map<nat, nat>, g: nat, c: seq<nat>, op: Op<T>, pc: PC<T>, l: seq<T>)
    requires AttachedChain(m, home, g, c) && Fit(m, c, op, pc) && Knows(m, c, op, pc, l)
    requires pc.AppendHead? || pc.AppendWalk?
    ensures GoesOn(m, c, op, pc, l)
  {
    if pc.AppendWalk? && pc.curr == TAIL {
      var b, pred := pc.batch, pc.pred;
      LastOne(m, home, g, c, pred);
      AppendApplies(m, c, b, op.elems);
      PublishLive(m, pred, b, Spliced(c, |c|, b));
    }
  }

  /** Only the last node, or head of an empty chain, is followed by tail. */
  lemma LastOne<T>(m: Mem<T>, home: map<nat, nat>, g: nat, c: seq<nat>, pred: nat)
    requires AttachedChain(m, home, g, c) && (pred == HEAD || pred in c) && Next(m, pred) == TAIL
    ensures if pred == HEAD then c == [] else IndexOf(c, pred) + 1 == |c|
  {
    if pred in c {
      var i := IndexOf(c, pred);
      assert Next(m, c[i]) == At(c, i + 1);
    }
  }

  lemma SearchGoesOn<T>(m: Mem<T>, home: map<nat, nat>, g: nat, c: seq<nat>, op: Op<T>, pc: PC<T>, l: seq<T>)
    requires AttachedChain(m, home, g, c) && Fit(m, c, op, pc) && Knows(m, c, op, pc, l) && pc.InsertTest?
    ensures GoesOn(m, c, op, pc, l)
  {
    if pc.curr == TAIL {
      TailBefore(m, home, g, c);
    } else {
      UptoIs(m, c, pc.curr);
    }
  }

  lemma InsertGoesOn<T>(m: Mem<T>, home: map<nat, nat>, g: nat, c: seq<nat>, op: Op<T>, pc: PC<T>, l: seq<T>)
    requires AttachedChain(m, home, g, c) && Fit(m, c, op, pc) && Knows(m, c, op, pc, l)
    requires pc.InsertHead? || pc.InsertAdvance? || pc.InsertNext? || pc.InsertStore?
    ensures GoesOn(m, c, op, pc, l)
  {
    match pc
    case InsertHead(_, _) => FirstBefore(m, home, g, c);
    case InsertAdvance(_, _, pred, _) => NextBefore(m, home, g, c, pred);
    case InsertNext(_, _, _) =>
    case InsertStore(n, _, pred, succ) => LinkFrame(m, c, n, succ);
  }

  lemma InsertOutcome<T>(m: Mem<T>, c: seq<nat>, index: nat, pred: nat, n: nat, e: T, l: seq<T>)
    requires pred in c && Live(m, c) == l && index == |Upto(m, c, pred)| && Live(m, [n]) == [e]
    ensures var c' := Spliced(c, IndexOf(c, pred) + 1, [n]);
            Outcome(Insert(index, e), l, Live(Write(m, Publish(pred, [n])), c'), Ok(true))
  {
    InsertKnows(m, c, index, pred, n, e, l);
    PublishLive(m, pred, [n], Spliced(c, IndexOf(c, pred) + 1, [n]));
  }

  lemma InsertCasGoesOn<T>(m: Mem<T>, c: seq<nat>, op: Op<T>, pc: PC<T>, l: seq<T>)
    requires HEAD !in c && Fit(m, c, op, pc) && Knows(m, c, op, pc, l) && pc.InsertCas?
    ensures GoesOn(m, c, op, pc, l)
  {
    InsertOutcome(m, c, pc.index, pc.pred, pc.node, op.elem, l);
  }

  lemma HeadCasGoesOn<T>(m: Mem<T>, c: seq<nat>, op: Op<T>, pc: PC<T>, l: seq<T>)
    requires HEAD !in c && Fit(m, c, op, pc) && Knows(m, c, op, pc, l) && pc.HeadCas?
    ensures GoesOn(m, c, op, pc, l)
  {
    HeadKnows(m, c, pc.node, op.elem, l);
    PublishLive(m, HEAD, [pc.node], Spliced(c, 0, [pc.node]));
  }

  lemma HeadStoreGoesOn<T>(m: Mem<T>, c: seq<nat>, op: Op<T>, pc: PC<T>, l: seq<T>)
    requires Fit(m, c, op, pc) && Knows(m, c, op, pc, l) && pc.HeadStore?
    ensures GoesOn(m, c, op, pc, l)
  {
    LinkFrame(m, c, pc.node, pc.first);
  }

  lemma HeadGoesOn<T>(m: Mem<T>, c: seq<nat>, op: Op<T>, pc: PC<T>, l: seq<T>)
    requires Fit(m, c, op, pc) && Knows(m, c, op, pc, l) && (pc.HeadLoad? || pc.ClearLoad? || pc.ClearCas?)
    ensures GoesOn(m, c, op, pc, l)
  {
  }

  lemma TurnGoesOn<T>(m: Mem<T>, home: map<nat, nat>, g: nat, c: seq<nat>, op: Op<T>, pc: PC<T>, l: seq<T>)
    requires AttachedChain(m, home, g, c) && Fit(m, c, op, pc) && Knows(m, c, op, pc, l)
    ensures GoesOn(m, c, op, pc, l)
  {
    if pc.WalkHead? || pc.WalkAdvance? {
      StrideGoesOn(m, home, g, c, op, pc, l);
    } else if pc.WalkTest? {
      TestGoesOn(m, home, g, c, op, pc, l);
    } else if pc.WalkCas? {
      CasGoesOn(m, c, op, pc.w, pc.curr, l);
    } else if pc.AppendHead? || pc.AppendWalk? {
      AppendGoesOn(m, home, g, c, op, pc, l);
    } else if pc.InsertCas? {
      InsertCasGoesOn(m, c, op, pc, l);
    } else if pc.HeadCas? {
      HeadCasGoesOn(m, c, op, pc, l);
    } else if pc.HeadStore? {
      HeadStoreGoesOn(m, c, op, pc, l);
    } else if pc.HeadLoad? || pc.ClearLoad? || pc.ClearCas? {
      HeadGoesOn(m, c, op, pc, l);
    } else if pc.InsertTest? {
      SearchGoesOn(m, home, g, c, op, pc, l);
    } else {
      InsertGoesOn(m, home, g, c, op, pc, l);
    }
  }

  lemma TurnKnowing<T>(m: Mem<T>, home: map<nat, nat>, g: nat, c: seq<nat>, op: Op<T>, pc: PC<T>, l: seq<T>)
    requires AttachedChain(m, home, g, c) && Fit(m, c, op, pc) && Knowing(op, l)(m, c, pc)
    ensures StepKeeps(m, c, pc, Knowing(op, l))
  {
    TurnGoesOn(m, home, g, c, op, pc, l);
  }

  /** The step at pc is not a failed CAS, and the facts hold after it. */
  ghost predicate StepKeeps<T>(m: Mem<T>, c: seq<nat>, pc: PC<T>, facts: Facts<T>) {
    var (pc', e) := Turn(m, pc);
    !e.Miss? && facts(Write(m, e), ChainAfter(c, e), pc')
  }

  // ---------- Runs ----------

  lemma FitOf<T>(s: State<T>, t: nat, th: Thread<T>)
    requires ChainsOk(s.mem, s.home, s.chains) && OwnOk(s, t, th) && PlaceOk(s, th)
    requires !th.pc.Idle? && !th.pc.Done? && !th.pc.WalkReload?
    requires LoadsHead(th.pc) || th.gen == Last(s)
    ensures Fit(s.mem, s.chains[Last(s)], th.op, th.pc)
  {
    var c := s.chains[Last(s)];
    assert ChainOk(s.mem, s.home, Last(s), c);
    match th.pc
    case AppendHead(b) => LiveBatch(s.mem, b, th.op.elems);
    case AppendWalk(b, _, _) => LiveBatch(s.mem, b, th.op.elems);
    case HeadLoad(n) => LiveBatch(s.mem, [n], [th.op.elem]); assert [n][0] == n;
    case HeadStore(n, _) => LiveBatch(s.mem, [n], [th.op.elem]); assert [n][0] == n;
    case HeadCas(n, _) => LiveBatch(s.mem, [n], [th.op.elem]); assert [n][0] == n;
    case InsertHead(n, _) => LiveBatch(s.mem, [n], [th.op.elem]); assert [n][0] == n;
    case InsertTest(n, _, _, _, _) => LiveBatch(s.mem, [n], [th.op.elem]); assert [n][0] == n;
    case InsertAdvance(n, _, _, _) => LiveBatch(s.mem, [n], [th.op.elem]); assert [n][0] == n;
    case InsertNext(n, _, _) => LiveBatch(s.mem, [n], [th.op.elem]); assert [n][0] == n;
    case InsertStore(n, _, _, _) => LiveBatch(s.mem, [n], [th.op.elem]); assert [n][0] == n;
    case InsertCas(n, _, _, _) => LiveBatch(s.mem, [n], [th.op.elem]); assert [n][0] == n;
    case _ =>
  }

  /** The last chain after an effect of a thread that is on it. */
  lemma LandLast<T>(s: State<T>, t: nat, th: Thread<T>, e: Effect<T>)
    requires ChainsOk(s.mem, s.home, s.chains) && EffectOk(s, t, th, e)
    requires e.Publish? ==> th.gen == Last(s)
    ensures var cs := LandChains(s, th, e); |cs| > 0 && cs[|cs| - 1] == ChainAfter(s.chains[Last(s)], e)
  {
    if e.Publish? {
      PublishLast(s, th, e.pred, e.batch);
    }
  }

  lemma PublishLast<T>(s: State<T>, th: Thread<T>, pred: nat, b: seq<nat>)
    requires ChainsOk(s.mem, s.home, s.chains) && AtPred(s, th, pred) && th.gen == Last(s)
    ensures LandChains(s, th, Publish(pred, b)) ==
            s.chains[Last(s) := ChainAfter<T>(s.chains[Last(s)], Publish(pred, b))]
  {
    SpotIsNext(s, th, pred);
  }

  lemma MoveLast<T>(s: State<T>, t: nat)
    requires Shape(s) && t in s.threads && (LoadsHead(s.threads[t].pc) || s.threads[t].gen == Last(s))
    ensures var e := Turn(s.mem, s.threads[t].pc).1; var cs := LandChains(s, s.threads[t], e);
            |cs| > 0 && cs[|cs| - 1] == ChainAfter(s.chains[Last(s)], e)
  {
    TurnEffect(s, t);
    CutEnds(s.mem, s.threads[t].pc);
    LandLast(s, t, s.threads[t], Turn(s.mem, s.threads[t].pc).1);
  }

  lemma TurnAlone<T>(s: State<T>, t: nat, l: seq<T>)
    requires Shape(s) && t in s.threads && Alone(s, s.threads[t], Knowing(s.threads[t].op, l))
    requires !s.threads[t].pc.Idle? && !s.threads[t].pc.Done?
    ensures StepKeeps(s.mem, s.chains[Last(s)], s.threads[t].pc, Knowing(s.threads[t].op, l))
  {
    var th := s.threads[t];
    assert !th.pc.WalkReload?;
    FitOf(s, t, th);
    TurnKnowing(s.mem, s.home, Last(s), s.chains[Last(s)], th.op, th.pc, l);
  }

  /** Alone as a function of the state, handed on as a whole: thread t is executing op, and f
      CASes had failed when it began. */
  ghost function AloneWith<T>(t: nat, op: Op<T>, facts: Facts<T>, f: nat): State<T> -> bool {
    (s: State<T>) => t in s.threads && s.threads[t].op == op && s.fails == f && Alone(s, s.threads[t], facts)
  }

  lemma MoveAlone<T>(s: State<T>, t: nat, op: Op<T>, facts: Facts<T>, f: nat)
    requires Shape(s) && Can(s, Move(t)) && AloneWith(t, op, facts, f)(s)
    requires StepKeeps(s.mem, s.chains[Last(s)], s.threads[t].pc, facts)
    ensures AloneWith(t, op, facts, f)(DoMove(s, t))
  {
    MoveLast(s, t);
    CutEnds(s.mem, s.threads[t].pc);
    var s' := DoMove(s, t);
    assert s'.threads[t] == Stepped(s, s.threads[t]);
  }

  /** Loading head publishes nothing, and a Clear's effect ends its call. */
  lemma CutEnds<T>(m: Mem<T>, pc: PC<T>)
    ensures var (pc', e) := Turn(m, pc); (e.Cut? ==> pc'.Done?) && (LoadsHead(pc) ==> e.Quiet?)
  {
  }

  lemma CallAlone<T>(s: State<T>, op: Op<T>)
    requires ChainsOk(s.mem, s.home, s.chains)
    ensures Knowing(op, Attached(s))(CallMem(s.mem, op), s.chains[Last(s)], CallPC(s.mem, op))
  {
    var c := s.chains[Last(s)];
    CallFrame(s.mem, op);
    assert ChainOk(s.mem, s.home, Last(s), c);
    LiveFrame(s.mem, CallMem(s.mem, op), c);
    CallKnows(CallMem(s.mem, op), c, op, s.mem, Live(s.mem, c));
  }

  lemma BeginAlone<T>(s: State<T>, t: nat, op: Op<T>)
    requires Shape(s) && Can(s, Begin(t, op))
    ensures AloneWith(t, op, Knowing(op, Attached(s)), s.fails)(DoBegin(s, t, op))
  {
    CallAlone(s, op);
    CallLoadsHead(s.mem, op);
  }

  lemma CallLoadsHead<T>(m: Mem<T>, op: Op<T>)
    ensures CallPC(m, op).Done? || LoadsHead(CallPC(m, op))
  {
  }

  lemma FilterStarts<T>(l: seq<T>, pred: T -> bool)
    ensures Filtered(l, [], l, pred, 0)
  {
    assert l[0..] == l;
    assert [] + Rejected(l, pred) == Rejected(l, pred);
  }

  lemma CallKnows<T>(m: Mem<T>, c: seq<nat>, op: Op<T>, m0: Mem<T>, l: seq<T>)
    requires Live(m, c) == l
    ensures Knowing(op, l)(m, c, CallPC(m0, op))
  {
    if op.RemoveFunc? {
      FilterStarts(l, op.pred);
    } else if op.Append? && op.elems == [] {
      assert l + [] == l;
    }
  }

  /** Steps b + 1 to i - 1 are all thread t's own. */
  ghost predicate Undisturbed<T>(labels: seq<Label<T>>, b: nat, i: nat, t: nat) {
    i <= |labels| && forall j {:trigger labels[j]} :: b < j < i ==> labels[j] == Move(t)
  }

  /** What thread t's own steps keep holds as long as it is left alone. */
  lemma {:induction false} RunOwn<T(!new)>(run: seq<State<T>>, labels: seq<Label<T>>, b: nat, i: nat, t: nat,
                                               p: State<T> -> bool)
    requires IsRun(run, labels) && b < i < |run| && Undisturbed(labels, b, i, t) && p(run[b + 1])
    requires forall s {:trigger p(s)} :: Shape(s) && Can(s, Move(t)) && p(s) ==> p(DoMove(s, t))
    ensures p(run[i])
  {
    if i > b + 1 {
      RunOwn(run, labels, b, i - 1, t, p);
      RunShape(run, labels, i - 1);
      var l := labels[i - 1];
      assert Can(run[i - 1], l) && l == Move(t);
      assert run[i] == DoMove(run[i - 1], t);
    }
  }

  lemma RunAlone<T(!new)>(run: seq<State<T>>, labels: seq<Label<T>>, b: nat, i: nat, t: nat, op: Op<T>)
    requires IsRun(run, labels) && b < i < |run| && labels[b] == Begin(t, op) && Undisturbed(labels, b, i, t)
    ensures AloneWith(t, op, Knowing(op, Attached(run[b])), run[b].fails)(run[i])
  {
    var facts, f := Knowing(op, Attached(run[b])), run[b].fails;
    var p := AloneWith(t, op, facts, f);
    RunShape(run, labels, b);
    var l := labels[b];
    assert Can(run[b], l) && run[b + 1] == Do(run[b], l);
    BeginAlone(run[b], t, op);
    forall s | Shape(s) && Can(s, Move(t)) && p(s)
      ensures p(DoMove(s, t))
    {
      TurnAlone(s, t, Attached(run[b]));
      MoveAlone(s, t, op, facts, f);
    }
    RunOwn(run, labels, b, i, t, p);
  }

  /** An operation left alone from its call to its return does, to the live elements attached
      to head, what it does on a sequence, and none of its CASes fails. */
  lemma AloneSequential<T(!new)>(run: seq<State<T>>, labels: seq<Label<T>>, b: nat, i: nat, t: nat, op: Op<T>)
    requires IsRun(run, labels) && b < i < |run| && labels[b] == Begin(t, op) && Undisturbed(labels, b, i, t)
    requires t in run[i].threads && run[i].threads[t].pc.Done?
    ensures Outcome(op, Attached(run[b]), Attached(run[i]), run[i].threads[t].pc.res)
    ensures run[i].fails == run[b].fails
  {
    RunAlone(run, labels, b, i, t, op);
    assert Knows(run[i].mem, run[i].chains[Last(run[i])], op, run[i].threads[t].pc, Attached(run[b]));
  }
}
