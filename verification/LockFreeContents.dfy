/**
 Every generation of the lock-free list replays: the effects logged on it, applied in log
 order to the empty sequence, are all legal and produce its live elements.
 */
module LockFreeContents {
  import opened Common
  import opened LockFreeMachine
  import opened LockFreeShape

  // ---------- Effects on a sequence ----------

  ghost predicate Fits<T>(c: seq<T>, a: Act<T>) {
    match a
    case AppendAct(_) => true
    case InsertAct(pos, _) => pos <= |c|
    case SetAct(pos, taken, box) => pos < |c| && taken.Ref? && c[pos] == taken.value && box.Ref?
    case RemoveAct(pos, taken) => pos < |c| && taken.Ref? && c[pos] == taken.value
    case ClearAct => true
  }

  ghost function Apply<T>(c: seq<T>, a: Act<T>): seq<T>
    requires Fits(c, a)
  {
    match a
    case AppendAct(vals) => c + vals
    case InsertAct(pos, v) => c[..pos] + [v] + c[pos..]
    case SetAct(pos, _, box) => c[pos := box.value]
    case RemoveAct(pos, _) => c[..pos] + c[pos + 1..]
    case ClearAct => []
  }

  /** The contents after a log, or None if some entry does not fit what it is applied to. */
  ghost function Replay<T>(c: seq<T>, log: seq<Entry<T>>): Option<seq<T>> {
    if log == [] then Some(c)
    else
      match Replay(c, log[..|log| - 1])
      case None => None
      case Some(d) => var a := log[|log| - 1].act; if Fits(d, a) then Some(Apply(d, a)) else None
  }

  lemma ReplayOne<T>(c: seq<T>, log: seq<Entry<T>>, e: Entry<T>)
    ensures Replay(c, log + [e]) ==
            match Replay(c, log)
            case None => None
            case Some(d) => if Fits(d, e.act) then Some(Apply(d, e.act)) else None
  {
    assert (log + [e])[..|log|] == log;
  }

  lemma {:induction false} ReplayConcat<T>(c: seq<T>, a: seq<Entry<T>>, b: seq<Entry<T>>)
    ensures Replay(c, a + b) == match Replay(c, a) case None => None case Some(d) => Replay(d, b)
  {
    if b == [] {
      assert a + b == a;
    } else {
      var b0 := b[..|b| - 1];
      var e := b[|b| - 1];
      ReplayConcat(c, a, b0);
      assert a + b == a + b0 + [e];
      ReplayOne(c, a + b0, e);
    }
  }

  // ---------- Live elements ----------

  lemma LiveStep<T>(m: Mem<T>, ns: seq<nat>, n: nat)
    ensures Live(m, ns + [n]) == Live(m, ns) + Shown(Cell(m, n))
  {
    assert (ns + [n])[..|ns|] == ns;
  }

  lemma {:induction false} LiveConcat<T>(m: Mem<T>, a: seq<nat>, b: seq<nat>)
    ensures Live(m, a + b) == Live(m, a) + Live(m, b)
  {
    if b == [] {
      assert a + b == a;
    } else {
      var b0, n := b[..|b| - 1], b[|b| - 1];
      calc {
        Live(m, a + b);
        { assert a + b == (a + b0) + [n]; LiveStep(m, a + b0, n); }
        Live(m, a + b0) + Shown(Cell(m, n));
        { LiveConcat(m, a, b0); }
        (Live(m, a) + Live(m, b0)) + Shown(Cell(m, n));
        Live(m, a) + (Live(m, b0) + Shown(Cell(m, n)));
        { assert b == b0 + [n]; LiveStep(m, b0, n); }
        Live(m, a) + Live(m, b);
      }
    }
  }

  lemma {:induction false} LiveFrame<T>(m: Mem<T>, m': Mem<T>, ns: seq<nat>)
    requires forall n :: n in ns ==> Cell(m', n) == Cell(m, n)
    ensures Live(m', ns) == Live(m, ns)
  {
    if ns != [] {
      LiveFrame(m, m', ns[..|ns| - 1]);
    }
  }

  lemma LiveOne<T>(m: Mem<T>, n: nat)
    ensures Live(m, [n]) == Shown(Cell(m, n))
  {
    assert [n][..0] == [];
  }

  lemma {:induction false} LiveBatch<T>(m: Mem<T>, b: seq<nat>, vals: seq<T>)
    requires |b| == |vals|
    requires forall j :: 0 <= j < |b| ==> Cell(m, b[j]).Ref? && Cell(m, b[j]).value == vals[j]
    ensures Live(m, b) == vals
  {
    if b != [] {
      LiveBatch(m, b[..|b| - 1], vals[..|b| - 1]);
    }
  }

  lemma LiveSplit<T>(m: Mem<T>, c: seq<nat>, i: nat)
    requires i < |c|
    ensures Live(m, c) == Live(m, c[..i]) + Shown(Cell(m, c[i])) + Live(m, c[i + 1..])
  {
    assert c == c[..i] + ([c[i]] + c[i + 1..]);
    LiveConcat(m, c[..i], [c[i]] + c[i + 1..]);
    LiveConcat(m, [c[i]], c[i + 1..]);
    LiveOne(m, c[i]);
  }

  lemma LiveSpliced<T>(m: Mem<T>, c: seq<nat>, i: nat, b: seq<nat>)
    requires i <= |c|
    ensures Live(m, Spliced(c, i, b)) == Live(m, c[..i]) + Live(m, b) + Live(m, c[i..])
    ensures Live(m, c) == Live(m, c[..i]) + Live(m, c[i..])
  {
    LiveConcat(m, c[..i] + b, c[i..]);
    LiveConcat(m, c[..i], b);
    LiveConcat(m, c[..i], c[i..]);
    assert c == c[..i] + c[i..];
  }

  // ---------- The invariant ----------

  ghost predicate Replays<T>(s: State<T>) {
    |s.logs| == |s.chains| &&
    forall g :: 0 <= g < |s.chains| ==> Replay([], s.logs[g]) == Some(Live(s.mem, s.chains[g]))
  }

  lemma PublishApplies<T>(m: Mem<T>, c: seq<nat>, i: nat, b: seq<nat>, e: T)
    requires i <= |c| && Live(m, b) == [e]
    ensures var a := InsertAct(|Live(m, c[..i])|, e);
            Fits(Live(m, c), a) && Apply(Live(m, c), a) == Live(m, Spliced(c, i, b))
  {
    LiveSpliced(m, c, i, b);
  }

  lemma AppendApplies<T>(m: Mem<T>, c: seq<nat>, b: seq<nat>, vals: seq<T>)
    requires Live(m, b) == vals
    ensures Apply(Live(m, c), AppendAct(vals)) == Live(m, Spliced(c, |c|, b))
  {
    LiveSpliced(m, c, |c|, b);
    assert Live(m, c[|c|..]) == [];
  }

  /** Changing or taking out the element v between a and b. */
  lemma Middle<T>(a: seq<T>, v: T, w: seq<T>, b: seq<T>)
    requires |w| <= 1
    ensures var s := a + [v] + b;
            && |a| < |s| && s[|a|] == v
            && (w != [] ==> s[|a| := w[0]] == a + w + b)
            && (w == [] ==> s[..|a|] + s[|a| + 1..] == a + w + b)
  {
  }

  lemma LiveSwapped<T>(m: Mem<T>, c: seq<nat>, i: nat, box: Ptr<T>)
    requires NoDup(c) && i < |c|
    ensures Live(m.(cell := m.cell[c[i] := box]), c) == Live(m, c[..i]) + Shown(box) + Live(m, c[i + 1..])
  {
    var m' := m.(cell := m.cell[c[i] := box]);
    LiveSplit(m', c, i);
    LiveFrame(m, m', c[..i]);
    LiveFrame(m, m', c[i + 1..]);
  }

  lemma SwapApplies<T>(m: Mem<T>, c: seq<nat>, n: nat, box: Ptr<T>, sets: bool)
    requires NoDup(c) && n in c && Cell(m, n).Ref? && (sets <==> box.Ref?)
    ensures var pos := |Live(m, c[..IndexOf(c, n)])|;
            var a := if sets then SetAct(pos, Cell(m, n), box) else RemoveAct(pos, Cell(m, n));
            Fits(Live(m, c), a) && Apply(Live(m, c), a) == Live(m.(cell := m.cell[n := box]), c)
  {
    var i := IndexOf(c, n);
    var m' := m.(cell := m.cell[n := box]);
    var a, b := Live(m, c[..i]), Live(m, c[i + 1..]);
    assert Live(m, c) == a + [Cell(m, n).value] + b by {
      LiveSplit(m, c, i);
    }
    LiveSwapped(m, c, i, box);
    Middle(a, Cell(m, n).value, Shown(box), b);
  }

  /** The act of a publishing CAS does to the live elements what it does to the chain. */
  lemma PublishActs<T>(s: State<T>, t: nat, th: Thread<T>, pred: nat, b: seq<nat>)
    requires ChainsOk(s.mem, s.home, s.chains) && EffectOk(s, t, th, Publish(pred, b))
    ensures SpotGen(s, th, pred) < |s.chains|
    ensures var c, a := Chain(s, SpotGen(s, th, pred)), PublishAct(s, th, pred);
            && Fits(Live(s.mem, c), a)
            && Apply(Live(s.mem, c), a) == Live(s.mem, Spliced(c, Spot(s, th, pred), b))
  {
    SpotIsNext(s, th, pred);
    var c := s.chains[SpotGen(s, th, pred)];
    LiveBatch(s.mem, b, if th.op.Append? then th.op.elems else [th.op.elem]);
    if th.op.Append? {
      assert ChainOk(s.mem, s.home, SpotGen(s, th, pred), c);
      assert Spot(s, th, pred) == |c|;
      AppendApplies(s.mem, c, b, th.op.elems);
    } else {
      PublishApplies(s.mem, c, Spot(s, th, pred), b, th.op.elem);
    }
  }

  lemma PublishReplays<T>(s: State<T>, t: nat, th: Thread<T>, pred: nat, b: seq<nat>)
    requires ChainsOk(s.mem, s.home, s.chains) && Replays(s)
    requires |s.cuts| < |s.chains|
    requires EffectOk(s, t, th, Publish(pred, b))
    ensures var e := Publish(pred, b);
            var g := SpotGen(s, th, pred);
            g < |s.chains| && Replay([], LandLogs(s, t, th, e)[g]) == Some(Live(s.mem, LandChains(s, th, e)[g]))
  {
    PublishActs(s, t, th, pred, b);
    var g := SpotGen(s, th, pred);
    ReplayOne([], s.logs[g], Mark(s, t, th, g, PublishAct(s, th, pred)));
  }

  lemma SwapReplays<T>(s: State<T>, t: nat, th: Thread<T>, n: nat, box: Ptr<T>)
    requires ChainsOk(s.mem, s.home, s.chains) && Replays(s)
    requires EffectOk(s, t, th, Swap(n, box))
    ensures var e := Swap(n, box);
            Replay([], LandLogs(s, t, th, e)[th.gen]) == Some(Live(Write(s.mem, e), s.chains[th.gen]))
  {
    var c := s.chains[th.gen];
    assert ChainOk(s.mem, s.home, th.gen, c);
    SwapApplies(s.mem, c, n, box, th.op.SetAt?);
    ReplayOne([], s.logs[th.gen], Mark(s, t, th, th.gen, SwapAct(s, th, n, box)));
  }

  /** Effects on one generation do not show in another. */
  lemma OtherReplays<T>(s: State<T>, t: nat, th: Thread<T>, e: Effect<T>, g: nat)
    requires ChainsOk(s.mem, s.home, s.chains) && Replays(s)
    requires EffectOk(s, t, th, e) && g < |s.chains|
    requires e.Publish? ==> g != SpotGen(s, th, e.pred)
    requires e.Swap? ==> g != th.gen
    ensures Replay([], LandLogs(s, t, th, e)[g]) == Some(Live(Write(s.mem, e), LandChains(s, th, e)[g]))
  {
    assert LandLogs(s, t, th, e)[g] == s.logs[g] && LandChains(s, th, e)[g] == s.chains[g];
    WriteCells(s, t, th, e, g);
    LiveFrame(s.mem, Write(s.mem, e), s.chains[g]);
  }

  lemma WriteCells<T>(s: State<T>, t: nat, th: Thread<T>, e: Effect<T>, g: nat)
    requires ChainsOk(s.mem, s.home, s.chains)
    requires EffectOk(s, t, th, e) && g < |s.chains|
    requires e.Swap? ==> g != th.gen
    ensures forall n :: n in s.chains[g] ==> Cell(Write(s.mem, e), n) == Cell(s.mem, n)
  {
    if e.Swap? {
      AtNodeHome(s, th, e.node);
      assert ChainOk(s.mem, s.home, g, s.chains[g]);
    }
  }

  ghost predicate ReplaysTo<T>(m: Mem<T>, log: seq<Entry<T>>, chain: seq<nat>) {
    Replay([], log) == Some(Live(m, chain))
  }

  lemma PublishLive<T>(m: Mem<T>, pred: nat, b: seq<nat>, c: seq<nat>)
    ensures Live(Write(m, Publish(pred, b)), c) == Live(m, c)
  {
    LiveFrame(m, Write(m, Publish(pred, b)), c);
  }

  lemma EffectReplaysAt<T>(s: State<T>, t: nat, th: Thread<T>, e: Effect<T>, g: nat)
    requires ChainsOk(s.mem, s.home, s.chains) && Replays(s)
    requires |s.cuts| < |s.chains|
    requires EffectOk(s, t, th, e) && g < |s.chains|
    ensures ReplaysTo(Write(s.mem, e), LandLogs(s, t, th, e)[g], LandChains(s, th, e)[g])
  {
    if e.Publish? && g == SpotGen(s, th, e.pred) {
      PublishReplays(s, t, th, e.pred, e.batch);
      PublishLive(s.mem, e.pred, e.batch, LandChains(s, th, e)[g]);
    } else if e.Swap? && g == th.gen {
      SwapReplays(s, t, th, e.node, e.box);
    } else {
      OtherReplays(s, t, th, e, g);
    }
  }

  lemma EffectReplays<T>(s: State<T>, t: nat, th: Thread<T>, e: Effect<T>, chains': seq<seq<nat>>,
                         logs': seq<seq<Entry<T>>>)
    requires ChainsOk(s.mem, s.home, s.chains) && Replays(s)
    requires |s.cuts| < |s.chains|
    requires EffectOk(s, t, th, e)
    requires chains' == LandChains(s, th, e) && logs' == LandLogs(s, t, th, e)
    ensures |logs'| == |chains'|
    ensures forall g {:trigger logs'[g]} :: 0 <= g < |chains'| ==> ReplaysTo(Write(s.mem, e), logs'[g], chains'[g])
  {
    forall g {:trigger logs'[g]} | 0 <= g < |chains'|
      ensures ReplaysTo(Write(s.mem, e), logs'[g], chains'[g])
    {
      if g < |s.chains| {
        EffectReplaysAt(s, t, th, e, g);
      }
    }
  }

  lemma DoReplays<T>(s: State<T>, l: Label<T>)
    requires Shape(s) && Replays(s) && Can(s, l)
    ensures Replays(Do(s, l))
  {
    match l
    case Begin(t, op) =>
      CallFrame(s.mem, op);
      forall g | 0 <= g < |s.chains|
        ensures Live(CallMem(s.mem, op), s.chains[g]) == Live(s.mem, s.chains[g])
      {
        assert ChainOk(s.mem, s.home, g, s.chains[g]);
        LiveFrame(s.mem, CallMem(s.mem, op), s.chains[g]);
      }
    case Move(t) =>
      TurnEffect(s, t);
      var s' := Do(s, l);
      EffectReplays(s, t, s.threads[t], Turn(s.mem, s.threads[t].pc).1, s'.chains, s'.logs);
      assert forall g {:trigger s'.logs[g]} :: 0 <= g < |s'.chains| ==> ReplaysTo(s'.mem, s'.logs[g], s'.chains[g]);
    case Finish(t) =>
  }

  /** In every run, the log of each generation replays to that generation's live elements. */
  lemma {:induction false} RunReplays<T>(run: seq<State<T>>, labels: seq<Label<T>>, i: nat)
    requires IsRun(run, labels) && i < |run|
    ensures Replays(run[i])
  {
    if i > 0 {
      RunReplays(run, labels, i - 1);
      RunShape(run, labels, i - 1);
      assert Can(run[i - 1], labels[i - 1]);
      DoReplays(run[i - 1], labels[i - 1]);
    }
  }
}
