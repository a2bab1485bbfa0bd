/**
 Every call is accounted for: the effects recorded for it are the ones its operation allows,
 there are exactly as many as its result says, and its result is what they did.
 */
module LockFreeAccounts {
  import opened LockFreeMachine
  import opened LockFreeShape
  import opened LockFreeTiming
  import opened LockFreePointers

  // ---------- What an operation may do, and what it returns ----------

  /** The effect is one the operation may have. */
  ghost predicate Matches<T>(op: Op<T>, a: Act<T>) {
    match op
    case Append(elems) => a == AppendAct(elems) && elems != []
    case Insert(index, e) => a.InsertAct? && a.val == e && index >= 0 && (index == 0 ==> a.pos == 0)
    case Clear => a == ClearAct
    case SetAt(index, e) => a.SetAct? && a.taken.Ref? && a.box.Ref? && a.box.value == e
    case RemoveAt(_) => a.RemoveAct? && a.taken.Ref?
    case RemoveFirst => a.RemoveAct? && a.taken.Ref?
    case RemoveLast => a.RemoveAct? && a.taken.Ref?
    case Remove(matches) => a.RemoveAct? && a.taken.Ref? && matches(a.taken.value)
    case RemoveFunc(pred) => a.RemoveAct? && a.taken.Ref? && pred(a.taken.value)
    case ToSlice => false
  }

  /** The result reports the effect: the element returned is the element taken out. */
  ghost predicate Reports<T>(op: Op<T>, a: Act<T>, res: Result<T>) {
    (op.SetAt? || op.RemoveAt? || op.RemoveFirst? || op.RemoveLast?) && Takes(a) ==> res == Got(a.taken.value)
  }

  ghost predicate TakenOrMissing<T>(res: Result<T>, made: nat) {
    (res.Missing? && made == 0) || (res.Got? && made == 1)
  }

  /** How many effects a call with this result has had. */
  ghost predicate Settled<T>(op: Op<T>, res: Result<T>, made: nat) {
    match op
    case Append(elems) => res == Unit && made == if elems == [] then 0 else 1
    case Insert(index, _) =>
      res.Ok? && made == (if res.ok then 1 else 0) && (index < 0 ==> !res.ok) && (index == 0 ==> res.ok)
    case Clear => res == Unit && made == 1
    case Remove(_) => res.Ok? && made == if res.ok then 1 else 0
    case RemoveFunc(_) => res == Count(made)
    case ToSlice => res.Slice? && made == 0
    case SetAt(_, _) => TakenOrMissing(res, made)
    case RemoveAt(_) => TakenOrMissing(res, made)
    case RemoveFirst => TakenOrMissing(res, made)
    case RemoveLast => TakenOrMissing(res, made)
  }

  /** Program points and operations that go together. */
  ghost predicate OpFits<T>(op: Op<T>, pc: PC<T>) {
    if pc.AppendHead? || pc.AppendWalk? then op.Append?
    else if pc.ClearLoad? || pc.ClearCas? then op.Clear?
    else if pc.HeadLoad? || pc.HeadStore? || pc.HeadCas? then op.Insert? && op.index == 0
    else if Walking(pc) then WalkFits(op, pc.w)
    else pc.Idle? || pc.Done? || (op.Insert? && op.index > 0)
  }

  ghost predicate WalkFits<T>(op: Op<T>, w: Walk<T>) {
    match w
    case SetW(_, _, _) => op.SetAt?
    case RemoveAtW(_, _) => op.RemoveAt?
    case FirstW => op.RemoveFirst?
    case LastW(_, _) => op.RemoveLast?
    case MatchW(_) => op.Remove?
    case FuncW(_, _) => op.RemoveFunc?
    case SliceW(_, _, _) => op.ToSlice?
  }

  ghost predicate MadeOk<T>(th: Thread<T>) {
    match th.pc
    case Idle => true
    case Done(res) => Settled(th.op, res, th.made)
    case _ => OpFits(th.op, th.pc) && (!th.op.RemoveFunc? ==> th.made == 0)
  }

  lemma FitsPC<T>(s: State<T>, t: nat, th: Thread<T>)
    requires OwnOk(s, t, th) && PlaceOk(s, th)
    ensures OpFits(th.op, th.pc)
  {
    if Walking(th.pc) {
      match th.pc.w
      case SetW(_, _, _) =>
      case LastW(_, _) =>
      case _ =>
    }
  }

  function MadeAfter<T>(m: Mem<T>, pc: PC<T>, made: nat): nat {
    if Counts(Turn(m, pc).1) then made + 1 else made
  }

  lemma TurnMadeLinks<T>(m: Mem<T>, pc: PC<T>, op: Op<T>)
    requires OpFits(op, pc) && !pc.Idle? && !pc.Done? && !Walking(pc)
    requires op.Append? ==> op.elems != []
    ensures var pc' := Turn(m, pc).0;
            if pc'.Done? then Settled(op, pc'.res, MadeAfter(m, pc, 0)) else OpFits(op, pc') && MadeAfter(m, pc, 0) == 0
  {
  }

  lemma TurnMadeWalk<T>(m: Mem<T>, pc: PC<T>, op: Op<T>, made: nat)
    requires OpFits(op, pc) && Walking(pc)
    requires !op.RemoveFunc? ==> made == 0
    requires pc.w.FuncW? ==> pc.w.removed == made
    requires pc.WalkCas? ==> pc.v.Ref? && !pc.w.SliceW?
    ensures var pc' := Turn(m, pc).0;
            if pc'.Done? then Settled(op, pc'.res, MadeAfter(m, pc, made))
            else OpFits(op, pc') && (!op.RemoveFunc? ==> MadeAfter(m, pc, made) == 0)
  {
    match pc.w
    case SetW(_, _, _) =>
    case RemoveAtW(_, _) =>
    case FirstW =>
    case LastW(_, _) =>
    case MatchW(_) =>
    case FuncW(_, _) =>
    case SliceW(_, _, _) =>
  }

  lemma TurnMade<T>(s: State<T>, t: nat, th: Thread<T>)
    requires OwnOk(s, t, th) && PlaceOk(s, th) && MadeOk(th) && !th.pc.Idle? && !th.pc.Done?
    ensures MadeOk(Stepped(s, th))
  {
    FitsPC(s, t, th);
    if Walking(th.pc) {
      TurnMadeWalk(s.mem, th.pc, th.op, th.made);
    } else {
      TurnMadeLinks(s.mem, th.pc, th.op);
    }
  }

  // ---------- Recorded effects ----------

  /** The entry an effect adds to a log. */
  function EntryOf<T>(s: State<T>, t: nat, th: Thread<T>, e: Effect<T>): Entry<T>
    requires Counts(e)
  {
    match e
    case Publish(pred, _) =>
      var g := SpotGen(s, th, pred);
      Mark(s, t, th, g, PublishAct(s, th, pred))
    case Swap(n, box) => Mark(s, t, th, th.gen, SwapAct(s, th, n, box))
    case _ => Entry(th.op, th.call, t, s.clock, ClearAct)
  }

  lemma SwapMatches<T>(s: State<T>, t: nat)
    requires Shape(s) && Boxes(s) && Can(s, Move(t))
    requires Turn(s.mem, s.threads[t].pc).1.Swap?
    ensures var th := s.threads[t]; var (pc', e) := Turn(s.mem, th.pc);
            Matches(th.op, SwapAct(s, th, e.node, e.box)) &&
            (pc'.Done? ==> Reports(th.op, SwapAct(s, th, e.node, e.box), pc'.res)) &&
            (!pc'.Done? ==> th.op.RemoveFunc?)
  {
    var th := s.threads[t];
    assert PlaceOk(s, th) && HeldOk(s, t, th.pc);
    SwapWalk(s.mem, th.pc);
    CasSame(s, th.pc.curr, th.pc.v);
    match th.pc.w
    case SetW(_, _, _) =>
    case LastW(_, _) =>
    case MatchW(_) =>
    case FuncW(_, _) =>
    case _ =>
  }

  lemma PublishMatches<T>(s: State<T>, t: nat)
    requires Shape(s) && Can(s, Move(t))
    requires Turn(s.mem, s.threads[t].pc).1.Publish?
    ensures var th := s.threads[t]; var (pc', e) := Turn(s.mem, th.pc);
            pc'.Done? && Matches(th.op, PublishAct(s, th, e.pred)) && Reports(th.op, PublishAct(s, th, e.pred), pc'.res)
  {
    var th := s.threads[t];
    var e := Turn(s.mem, th.pc).1;
    assert OwnOk(s, t, th);
    TurnEffect(s, t);
    SpotIsNext(s, th, e.pred);
    PublishDone(s.mem, th.pc);
  }

  lemma EntryMatches<T>(s: State<T>, t: nat)
    requires Shape(s) && Boxes(s) && Can(s, Move(t))
    requires Counts(Turn(s.mem, s.threads[t].pc).1)
    ensures var th := s.threads[t]; var (pc', e) := Turn(s.mem, th.pc); var x := EntryOf(s, t, th, e);
            && x.op == th.op && x.call == th.call && x.tid == t
            && Matches(th.op, x.act)
            && (if pc'.Done? then Reports(th.op, x.act, pc'.res) else th.op.RemoveFunc?)
  {
    var th := s.threads[t];
    var e := Turn(s.mem, th.pc).1;
    if e.Swap? {
      SwapMatches(s, t);
    } else if e.Publish? {
      PublishMatches(s, t);
    } else {
      TurnEffect(s, t);
    }
  }

  /** The entry belongs to a call that is running or has returned, and fits it. */
  ghost predicate Known<T>(threads: map<nat, Thread<T>>, ended: map<nat, Call<T>>, e: Entry<T>) {
    && Matches(e.op, e.act)
    && if e.call in ended then ended[e.call].op == e.op && Reports(e.op, e.act, ended[e.call].res)
       else
         && e.tid in threads && !threads[e.tid].pc.Idle?
         && threads[e.tid].call == e.call && threads[e.tid].op == e.op
         && (if threads[e.tid].pc.Done? then Reports(e.op, e.act, threads[e.tid].pc.res) else e.op.RemoveFunc?)
  }

  /** Running calls are distinct, and different from those that have returned. */
  ghost predicate CallsApart<T>(s: State<T>) {
    && (forall t, u ::
       t in s.threads && u in s.threads && t != u && !s.threads[t].pc.Idle? && !s.threads[u].pc.Idle? ==>
          s.threads[t].call != s.threads[u].call)
    && (forall t :: t in s.threads && !s.threads[t].pc.Idle? ==>
       s.threads[t].call !in s.ended && s.threads[t].call < s.clock)
    && (forall c :: c in s.ended ==> c < s.clock)
  }

  ghost predicate AllKnown<T>(s: State<T>) {
    && (forall g, i :: 0 <= g < |s.logs| && 0 <= i < |s.logs[g]| ==> Known(s.threads, s.ended, s.logs[g][i]))
    && (forall g :: 0 <= g < |s.cuts| ==> Known(s.threads, s.ended, s.cuts[g]))
  }

  lemma MoveStillKnown<T>(s: State<T>, t: nat, e: Entry<T>)
    requires Can(s, Move(t)) && Known(s.threads, s.ended, e)
    ensures Known(DoMove(s, t).threads, s.ended, e)
  {
  }

  /** A step keeps every recorded entry in order. */
  lemma StillKnown<T>(s: State<T>, l: Label<T>, e: Entry<T>)
    requires Can(s, l) && CallsApart(s) && Known(s.threads, s.ended, e)
    ensures Known(Do(s, l).threads, Do(s, l).ended, e)
  {
    match l
    case Begin(t, op) =>
    case Move(t) => MoveStillKnown(s, t, e);
    case Finish(t) =>
  }

  lemma LoggedAt<T>(logs: seq<seq<Entry<T>>>, at: nat, e: Entry<T>, g: nat, i: nat)
    requires g < |Logged(logs, at, e)| && i < |Logged(logs, at, e)[g]|
    ensures (i < |logs[g]| && Logged(logs, at, e)[g][i] == logs[g][i]) || Logged(logs, at, e)[g][i] == e
  {
  }

  /** The logs after a step: as before, plus the entry of the effect if there was one. */
  lemma NewLogs<T>(s: State<T>, t: nat, th: Thread<T>, e: Effect<T>, g: nat, i: nat)
    requires ChainsOk(s.mem, s.home, s.chains) && |s.logs| == |s.chains|
    requires EffectOk(s, t, th, e)
    requires g < |LandLogs(s, t, th, e)| && i < |LandLogs(s, t, th, e)[g]|
    ensures (g < |s.logs| && i < |s.logs[g]| && LandLogs(s, t, th, e)[g][i] == s.logs[g][i]) ||
            (Counts(e) && LandLogs(s, t, th, e)[g][i] == EntryOf(s, t, th, e))
  {
    match e
    case Publish(pred, _) =>
      SpotIsNext(s, th, pred);
      LoggedAt(s.logs, SpotGen(s, th, pred), EntryOf(s, t, th, e), g, i);
    case Swap(_, _) => LoggedAt(s.logs, th.gen, EntryOf(s, t, th, e), g, i);
    case _ =>
  }

  lemma KnownOf<T>(threads: map<nat, Thread<T>>, ended: map<nat, Call<T>>, t: nat, th: Thread<T>, x: Entry<T>)
    requires !th.pc.Idle? && th.call !in ended
    requires x.op == th.op && x.call == th.call && x.tid == t && Matches(th.op, x.act)
    requires if th.pc.Done? then Reports(th.op, x.act, th.pc.res) else th.op.RemoveFunc?
    ensures Known(threads[t := th], ended, x)
  {
  }

  lemma NotIdle<T>(m: Mem<T>, pc: PC<T>)
    requires !pc.Idle?
    ensures !Turn(m, pc).0.Idle?
  {
    if pc.WalkTest? || pc.WalkCas? {
      match pc.w
      case LastW(_, _) =>
      case _ =>
    }
  }

  lemma NewKnown<T>(s: State<T>, t: nat)
    requires Shape(s) && Boxes(s) && CallsApart(s) && Can(s, Move(t))
    requires Counts(Turn(s.mem, s.threads[t].pc).1)
    ensures Known(s.threads[t := Stepped(s, s.threads[t])], s.ended,
            EntryOf(s, t, s.threads[t], Turn(s.mem, s.threads[t].pc).1))
  {
    EntryMatches(s, t);
    NotIdle(s.mem, s.threads[t].pc);
    KnownOf(s.threads, s.ended, t, Stepped(s, s.threads[t]),
      EntryOf(s, t, s.threads[t], Turn(s.mem, s.threads[t].pc).1));
  }

  lemma MoveKnown<T>(s: State<T>, t: nat, g: nat, i: nat)
    requires Shape(s) && Boxes(s) && CallsApart(s) && AllKnown(s) && Can(s, Move(t))
    requires g < |DoMove(s, t).logs| && i < |DoMove(s, t).logs[g]|
    ensures var s' := DoMove(s, t); Known(s'.threads, s'.ended, s'.logs[g][i])
  {
    var th := s.threads[t];
    var e := Turn(s.mem, th.pc).1;
    TurnEffect(s, t);
    NewLogs(s, t, th, e, g, i);
    if g < |s.logs| && i < |s.logs[g]| && LandLogs(s, t, th, e)[g][i] == s.logs[g][i] {
      StillKnown(s, Move(t), s.logs[g][i]);
    } else {
      NewKnown(s, t);
    }
  }

  lemma MoveCutsKnown<T>(s: State<T>, t: nat, g: nat)
    requires Shape(s) && Boxes(s) && CallsApart(s) && AllKnown(s) && Can(s, Move(t))
    requires g < |DoMove(s, t).cuts|
    ensures var s' := DoMove(s, t); Known(s'.threads, s'.ended, s'.cuts[g])
  {
    if g < |s.cuts| {
      StillKnown(s, Move(t), s.cuts[g]);
    } else {
      NewKnown(s, t);
    }
  }

  lemma DoKnown<T>(s: State<T>, l: Label<T>)
    requires Shape(s) && Boxes(s) && CallsApart(s) && AllKnown(s) && Can(s, l)
    ensures AllKnown(Do(s, l))
  {
    var s' := Do(s, l);
    forall g, i | 0 <= g < |s'.logs| && 0 <= i < |s'.logs[g]|
      ensures Known(s'.threads, s'.ended, s'.logs[g][i])
    {
      if l.Move? {
        MoveKnown(s, l.tid, g, i);
      } else {
        StillKnown(s, l, s.logs[g][i]);
      }
    }
    forall g | 0 <= g < |s'.cuts|
      ensures Known(s'.threads, s'.ended, s'.cuts[g])
    {
      if l.Move? {
        MoveCutsKnown(s, l.tid, g);
      } else {
        StillKnown(s, l, s.cuts[g]);
      }
    }
  }

  lemma DoApart<T>(s: State<T>, l: Label<T>)
    requires CallsApart(s) && Can(s, l)
    ensures CallsApart(Do(s, l))
  {
  }

  // ---------- How many ----------

  /** Entries of a log that belong to call c. */
  function Times<T>(log: seq<Entry<T>>, c: nat): nat {
    if log == [] then 0 else Times(log[..|log| - 1], c) + if log[|log| - 1].call == c then 1 else 0
  }

  function TimesAll<T>(logs: seq<seq<Entry<T>>>, c: nat): nat {
    if logs == [] then 0 else TimesAll(logs[..|logs| - 1], c) + Times(logs[|logs| - 1], c)
  }

  /** Effects recorded for call c. */
  function Tally<T>(s: State<T>, c: nat): nat {
    TimesAll(s.logs, c) + Times(s.cuts, c)
  }

  lemma TimesOne<T>(log: seq<Entry<T>>, e: Entry<T>, c: nat)
    ensures Times(log + [e], c) == Times(log, c) + if e.call == c then 1 else 0
  {
    assert (log + [e])[..|log|] == log;
  }

  lemma {:induction false} TimesAllOne<T>(logs: seq<seq<Entry<T>>>, g: nat, e: Entry<T>, c: nat)
    requires g < |logs|
    ensures TimesAll(logs[g := logs[g] + [e]], c) == TimesAll(logs, c) + if e.call == c then 1 else 0
  {
    var n := |logs| - 1;
    var logs' := logs[g := logs[g] + [e]];
    if g == n {
      assert logs'[..n] == logs[..n];
      TimesOne(logs[n], e, c);
    } else {
      assert logs'[..n] == logs[..n][g := logs[g] + [e]];
      TimesAllOne(logs[..n], g, e, c);
    }
  }

  lemma TimesAllNew<T>(logs: seq<seq<Entry<T>>>, c: nat)
    ensures TimesAll(logs + [[]], c) == TimesAll(logs, c)
  {
    assert (logs + [[]])[..|logs|] == logs;
  }

  lemma {:induction false} TimesNone<T>(log: seq<Entry<T>>, c: nat)
    requires forall i :: 0 <= i < |log| ==> log[i].call != c
    ensures Times(log, c) == 0
  {
    if log != [] {
      TimesNone(log[..|log| - 1], c);
    }
  }

  lemma {:induction false} TimesAllNone<T>(logs: seq<seq<Entry<T>>>, c: nat)
    requires forall g, i :: 0 <= g < |logs| && 0 <= i < |logs[g]| ==> logs[g][i].call != c
    ensures TimesAll(logs, c) == 0
  {
    if logs != [] {
      TimesNone(logs[|logs| - 1], c);
      TimesAllNone(logs[..|logs| - 1], c);
    }
  }

  /** A call that has not begun has no effects. */
  lemma TallyNone<T>(s: State<T>)
    requires Timed(s)
    ensures Tally(s, s.clock) == 0
  {
    forall g, i | 0 <= g < |s.logs| && 0 <= i < |s.logs[g]|
      ensures s.logs[g][i].call != s.clock
    {
      assert LogTimed(s.clock, s.cuts, g, s.logs[g]);
      assert EntryTimed(s.clock, s.cuts, g, s.logs[g][i]);
    }
    TimesAllNone(s.logs, s.clock);
    TimesNone(s.cuts, s.clock);
  }

  lemma EffectTally<T>(s: State<T>, t: nat, th: Thread<T>, e: Effect<T>, c: nat)
    requires ChainsOk(s.mem, s.home, s.chains) && |s.logs| == |s.chains|
    requires EffectOk(s, t, th, e)
    ensures Tally(Land(s, t, th, e), c) == Tally(s, c) + if Counts(e) && th.call == c then 1 else 0
  {
    match e
    case Publish(pred, _) =>
      SpotIsNext(s, th, pred);
      TimesAllOne(s.logs, SpotGen(s, th, pred), EntryOf(s, t, th, e), c);
    case Swap(_, _) => TimesAllOne(s.logs, th.gen, EntryOf(s, t, th, e), c);
    case Cut =>
      TimesAllNew(s.logs, c);
      TimesOne(s.cuts, EntryOf(s, t, th, e), c);
    case _ =>
  }

  /** Each call has had as many effects as it thinks. */
  ghost predicate Tallied<T>(s: State<T>) {
    && (forall t :: t in s.threads && !s.threads[t].pc.Idle? ==> Tally(s, s.threads[t].call) == s.threads[t].made)
    && (forall c :: c in s.ended ==> Tally(s, c) == s.ended[c].made)
  }

  lemma MoveTally<T>(s: State<T>, t: nat, c: nat)
    requires Shape(s) && Can(s, Move(t))
    ensures Tally(DoMove(s, t), c) ==
            Tally(s, c) + if Counts(Turn(s.mem, s.threads[t].pc).1) && s.threads[t].call == c then 1 else 0
  {
    TurnEffect(s, t);
    EffectTally(s, t, s.threads[t], Turn(s.mem, s.threads[t].pc).1, c);
  }

  lemma MoveTallied<T>(s: State<T>, t: nat)
    requires Shape(s) && CallsApart(s) && Tallied(s) && Can(s, Move(t))
    ensures Tallied(DoMove(s, t))
  {
    var s' := DoMove(s, t);
    forall c: nat
      ensures Tally(s', c) == Tally(s, c) + if Counts(Turn(s.mem, s.threads[t].pc).1) && s.threads[t].call == c then 1
              else 0
    {
      MoveTally(s, t, c);
    }
  }

  lemma BeginTallied<T>(s: State<T>, t: nat, op: Op<T>)
    requires Timed(s) && Tallied(s) && Can(s, Begin(t, op))
    ensures Tallied(DoBegin(s, t, op))
  {
    TallyNone(s);
  }

  lemma FinishTallied<T>(s: State<T>, t: nat)
    requires Tallied(s) && Can(s, Finish(t))
    ensures Tallied(DoFinish(s, t))
  {
  }

  lemma DoTallied<T>(s: State<T>, l: Label<T>)
    requires Shape(s) && Timed(s) && CallsApart(s) && Tallied(s) && Can(s, l)
    ensures Tallied(Do(s, l))
  {
    match l
    case Begin(t, op) => BeginTallied(s, t, op);
    case Move(t) => MoveTallied(s, t);
    case Finish(t) => FinishTallied(s, t);
  }

  /** ... and as many as its result says. */
  ghost predicate AllMade<T>(s: State<T>) {
    && (forall t :: t in s.threads ==> MadeOk(s.threads[t]))
    && (forall c :: c in s.ended ==> Settled(s.ended[c].op, s.ended[c].res, s.ended[c].made))
  }

  lemma BeginMade<T>(m: Mem<T>, op: Op<T>, th: Thread<T>)
    requires th.pc == CallPC(m, op) && th.op == op && th.made == 0
    ensures MadeOk(th)
  {
  }

  lemma DoMade<T>(s: State<T>, l: Label<T>, t: nat)
    requires Shape(s) && AllMade(s) && Can(s, l) && t in Do(s, l).threads
    ensures MadeOk(Do(s, l).threads[t])
  {
    if t == l.tid {
      match l
      case Begin(_, op) => BeginMade(s.mem, op, Do(s, l).threads[t]);
      case Move(_) => TurnMade(s, t, s.threads[t]);
      case Finish(_) =>
    }
  }

  lemma DoAllMade<T>(s: State<T>, l: Label<T>)
    requires Shape(s) && AllMade(s) && Can(s, l)
    ensures AllMade(Do(s, l))
  {
    forall t | t in Do(s, l).threads
      ensures MadeOk(Do(s, l).threads[t])
    {
      DoMade(s, l, t);
    }
  }

  ghost predicate Accounts<T>(s: State<T>) {
    CallsApart(s) && AllKnown(s) && Tallied(s) && AllMade(s)
  }

  lemma {:induction false} RunApart<T>(run: seq<State<T>>, labels: seq<Label<T>>, i: nat)
    requires IsRun(run, labels) && i < |run|
    ensures CallsApart(run[i])
  {
    if i > 0 {
      RunApart(run, labels, i - 1);
      assert Can(run[i - 1], labels[i - 1]);
      DoApart(run[i - 1], labels[i - 1]);
    }
  }

  lemma {:induction false} RunKnown<T>(run: seq<State<T>>, labels: seq<Label<T>>, i: nat)
    requires IsRun(run, labels) && i < |run|
    ensures AllKnown(run[i])
  {
    if i > 0 {
      RunKnown(run, labels, i - 1);
      RunApart(run, labels, i - 1);
      RunShape(run, labels, i - 1);
      RunBoxes(run, labels, i - 1);
      assert Can(run[i - 1], labels[i - 1]);
      DoKnown(run[i - 1], labels[i - 1]);
    }
  }

  lemma {:induction false} RunTallied<T>(run: seq<State<T>>, labels: seq<Label<T>>, i: nat)
    requires IsRun(run, labels) && i < |run|
    ensures Tallied(run[i])
  {
    if i > 0 {
      RunTallied(run, labels, i - 1);
      RunApart(run, labels, i - 1);
      RunShape(run, labels, i - 1);
      RunTimed(run, labels, i - 1);
      assert Can(run[i - 1], labels[i - 1]);
      DoTallied(run[i - 1], labels[i - 1]);
    }
  }

  lemma {:induction false} RunMade<T>(run: seq<State<T>>, labels: seq<Label<T>>, i: nat)
    requires IsRun(run, labels) && i < |run|
    ensures AllMade(run[i])
  {
    if i > 0 {
      RunMade(run, labels, i - 1);
      RunShape(run, labels, i - 1);
      assert Can(run[i - 1], labels[i - 1]);
      DoAllMade(run[i - 1], labels[i - 1]);
    }
  }

  /** In every run each logged effect is accounted for by its call, and each call by its effects. */
  lemma RunAccounts<T>(run: seq<State<T>>, labels: seq<Label<T>>, i: nat)
    requires IsRun(run, labels) && i < |run|
    ensures Accounts(run[i])
  {
    RunApart(run, labels, i);
    RunKnown(run, labels, i);
    RunTallied(run, labels, i);
    RunMade(run, labels, i);
  }
}
