/**
 Linearization points. Every effect has a point inside the interval of the call that had it;
 in particular an effect that lands on a chain already detached is placed at the Clear that
 detached it, and that Clear happened during the call.
 */
module LockFreeTiming {
  import opened LockFreeMachine
  import opened LockFreeShape

  /** The generation a thread works on was attached at some step of its current call. */
  ghost predicate ThreadTimed<T>(clock: nat, cuts: seq<Entry<T>>, th: Thread<T>) {
    (!th.pc.Idle? ==> th.call < clock) &&
    (UsesGen(th.pc) ==>
      && th.call <= th.since < clock && th.gen <= |cuts|
      && (th.gen < |cuts| ==> th.since <= cuts[th.gen].point))
  }

  /** The first moment of generation g. */
  function Opening<T>(cuts: seq<Entry<T>>, g: nat): nat {
    if 0 < g <= |cuts| then cuts[g - 1].point else 0
  }

  /** The last moment of generation g, if it is over. */
  function Closing<T>(cuts: seq<Entry<T>>, clock: nat, g: nat): nat {
    if g < |cuts| then cuts[g].point else clock
  }

  ghost predicate EntryTimed<T>(clock: nat, cuts: seq<Entry<T>>, g: nat, e: Entry<T>) {
    e.call <= e.point < clock && Opening(cuts, g) <= e.point <= Closing(cuts, clock, g)
  }

  ghost predicate Sorted<T>(log: seq<Entry<T>>) {
    forall i, j :: 0 <= i < j < |log| ==> log[i].point <= log[j].point
  }

  ghost predicate CutsTimed<T>(clock: nat, cuts: seq<Entry<T>>) {
    Sorted(cuts) && forall g :: 0 <= g < |cuts| ==> cuts[g].call <= cuts[g].point < clock
  }

  ghost predicate LogTimed<T>(clock: nat, cuts: seq<Entry<T>>, g: nat, log: seq<Entry<T>>) {
    Sorted(log) && forall i :: 0 <= i < |log| ==> EntryTimed(clock, cuts, g, log[i])
  }

  ghost predicate Timed<T>(s: State<T>) {
    && |s.logs| == |s.cuts| + 1
    && CutsTimed(s.clock, s.cuts)
    && (forall g :: 0 <= g < |s.logs| ==> LogTimed(s.clock, s.cuts, g, s.logs[g]))
    && (forall t :: t in s.threads ==> ThreadTimed(s.clock, s.cuts, s.threads[t]))
  }

  // ---------- Preservation ----------

  /** Time passing does not disturb what has been recorded. */
  lemma Later<T>(clock: nat, clock': nat, cuts: seq<Entry<T>>, g: nat, log: seq<Entry<T>>)
    requires LogTimed(clock, cuts, g, log) && clock <= clock'
    ensures LogTimed(clock', cuts, g, log)
  {
    forall i | 0 <= i < |log|
      ensures EntryTimed(clock', cuts, g, log[i])
    {
      assert EntryTimed(clock, cuts, g, log[i]);
    }
  }

  lemma LaterCut<T>(clock: nat, cuts: seq<Entry<T>>, cut: Entry<T>, g: nat, log: seq<Entry<T>>)
    requires LogTimed(clock, cuts, g, log) && g <= |cuts| && cut.point == clock
    ensures LogTimed(clock + 1, cuts + [cut], g, log)
  {
    forall i | 0 <= i < |log|
      ensures EntryTimed(clock + 1, cuts + [cut], g, log[i])
    {
      assert EntryTimed(clock, cuts, g, log[i]);
    }
  }

  lemma LogOne<T>(clock: nat, cuts: seq<Entry<T>>, g: nat, log: seq<Entry<T>>, e: Entry<T>)
    requires CutsTimed(clock, cuts) && LogTimed(clock, cuts, g, log) && g <= |cuts|
    requires e.call <= e.point == Closing(cuts, clock, g)
    ensures LogTimed(clock + 1, cuts, g, log + [e])
  {
    Later(clock, clock + 1, cuts, g, log);
    var log' := log + [e];
    forall i | 0 <= i < |log'|
      ensures EntryTimed(clock + 1, cuts, g, log'[i]) && log'[i].point <= e.point
    {
      if i < |log| {
        assert EntryTimed(clock, cuts, g, log[i]);
        assert EntryTimed(clock + 1, cuts, g, log[i]);
      }
    }
  }

  /** The interval claim: whatever generation the effect lands on, its point is not before
      the call. */
  lemma PointInCall<T>(s: State<T>, t: nat, g: nat)
    requires Shape(s) && Timed(s) && Can(s, Move(t))
    requires var th := s.threads[t]; var e := Turn(s.mem, th.pc).1;
             (e.Publish? && g == SpotGen(s, th, e.pred)) || (e.Swap? && g == th.gen)
    ensures s.threads[t].call <= Point(s, g) == Closing(s.cuts, s.clock, g) && g <= |s.cuts|
  {
    var th := s.threads[t];
    assert ThreadTimed(s.clock, s.cuts, th);
    TurnEffect(s, t);
  }

  lemma MoveCuts<T>(s: State<T>, t: nat)
    requires Timed(s) && Can(s, Move(t))
    ensures CutsTimed(s.clock + 1, DoMove(s, t).cuts)
  {
    assert ThreadTimed(s.clock, s.cuts, s.threads[t]);
  }

  /** A log without a new entry, or with one for an effect on its own generation. */
  lemma EffectLogs<T>(s: State<T>, t: nat, th: Thread<T>, e: Effect<T>, g: nat)
    requires g < |LandLogs(s, t, th, e)| && EffectOk(s, t, th, e) && !e.Cut?
    ensures g < |s.logs|
    ensures var log := LandLogs(s, t, th, e)[g];
            || log == s.logs[g]
            || (e.Publish? && g == SpotGen(s, th, e.pred) &&
              log == s.logs[g] + [Mark(s, t, th, g, PublishAct(s, th, e.pred))])
            || (e.Swap? && g == th.gen && log == s.logs[g] + [Mark(s, t, th, g, SwapAct(s, th, e.node, e.box))])
  {
  }

  lemma EffectLogTimed<T>(s: State<T>, t: nat, e: Effect<T>, g: nat)
    requires Shape(s) && Timed(s) && Can(s, Move(t)) && e == Turn(s.mem, s.threads[t].pc).1 && !e.Cut?
    requires g < |LandLogs(s, t, s.threads[t], e)|
    ensures LogTimed(s.clock + 1, s.cuts, g, LandLogs(s, t, s.threads[t], e)[g])
  {
    var th := s.threads[t];
    TurnEffect(s, t);
    EffectLogs(s, t, th, e, g);
    if LandLogs(s, t, th, e)[g] == s.logs[g] {
      Later(s.clock, s.clock + 1, s.cuts, g, s.logs[g]);
    } else {
      PointInCall(s, t, g);
      var act := if e.Publish? then PublishAct(s, th, e.pred) else SwapAct(s, th, e.node, e.box);
      LogOne(s.clock, s.cuts, g, s.logs[g], Mark(s, t, th, g, act));
    }
  }

  lemma MoveLogs<T>(s: State<T>, t: nat, g: nat)
    requires Shape(s) && Timed(s) && Can(s, Move(t)) && g < |DoMove(s, t).logs|
    ensures var s' := DoMove(s, t); LogTimed(s'.clock, s'.cuts, g, s'.logs[g])
  {
    var s' := DoMove(s, t);
    var e := Turn(s.mem, s.threads[t].pc).1;
    if !e.Cut? {
      EffectLogTimed(s, t, e, g);
    } else if g < |s.logs| {
      LaterCut(s.clock, s.cuts, s'.cuts[|s.cuts|], g, s.logs[g]);
    }
  }

  lemma MoveThread<T>(s: State<T>, t: nat, u: nat)
    requires Shape(s) && Timed(s) && Can(s, Move(t)) && u in s.threads
    ensures var s' := DoMove(s, t); ThreadTimed(s'.clock, s'.cuts, s'.threads[u])
  {
    assert ThreadTimed(s.clock, s.cuts, s.threads[u]);
  }

  lemma DoLog<T>(s: State<T>, l: Label<T>, g: nat)
    requires Shape(s) && Timed(s) && Can(s, l) && g < |Do(s, l).logs|
    ensures var s' := Do(s, l); LogTimed(s'.clock, s'.cuts, g, s'.logs[g])
  {
    if l.Move? {
      MoveLogs(s, l.tid, g);
    } else {
      Later(s.clock, s.clock + 1, s.cuts, g, s.logs[g]);
    }
  }

  lemma DoThreadTimed<T>(s: State<T>, l: Label<T>, u: nat)
    requires Shape(s) && Timed(s) && Can(s, l) && u in Do(s, l).threads
    ensures var s' := Do(s, l); ThreadTimed(s'.clock, s'.cuts, s'.threads[u])
  {
    assert u in s.threads && ThreadTimed(s.clock, s.cuts, s.threads[u]);
    if l.Move? {
      MoveThread(s, l.tid, u);
    }
  }

  lemma DoTimed<T>(s: State<T>, l: Label<T>)
    requires Shape(s) && Timed(s) && Can(s, l)
    ensures Timed(Do(s, l))
  {
    var s' := Do(s, l);
    forall g | 0 <= g < |s'.logs|
      ensures LogTimed(s'.clock, s'.cuts, g, s'.logs[g])
    {
      DoLog(s, l, g);
    }
    forall u | u in s'.threads
      ensures ThreadTimed(s'.clock, s'.cuts, s'.threads[u])
    {
      DoThreadTimed(s, l, u);
    }
    if l.Move? {
      MoveCuts(s, l.tid);
      DoShape(s, l);
    }
  }

  lemma {:induction false} RunTimed<T>(run: seq<State<T>>, labels: seq<Label<T>>, i: nat)
    requires IsRun(run, labels) && i < |run|
    ensures Timed(run[i]) && run[i].clock == i
  {
    if i > 0 {
      RunTimed(run, labels, i - 1);
      RunShape(run, labels, i - 1);
      assert Can(run[i - 1], labels[i - 1]);
      DoTimed(run[i - 1], labels[i - 1]);
    }
  }
}
