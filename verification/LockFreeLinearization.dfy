/**
 The linearization theorem and the ledger of values, over all runs of all operations by any
 number of threads.
 */
module LockFreeLinearization {
  import opened Common
  import opened LockFreeMachine
  import opened LockFreeShape
  import opened LockFreeContents
  import opened LockFreeTiming
  import opened LockFreeAccounts

  // ---------- One sequence of effects ----------

  /** Generations 0..k with the Clears between them. */
  function Flat<T>(logs: seq<seq<Entry<T>>>, cuts: seq<Entry<T>>, k: nat): seq<Entry<T>>
    requires k <= |cuts| && k < |logs|
  {
    if k == 0 then logs[0] else Flat(logs, cuts, k - 1) + [cuts[k - 1]] + logs[k]
  }

  /** All effects of a run so far, in linearization order. */
  function Lin<T>(s: State<T>): seq<Entry<T>>
    requires |s.logs| == |s.cuts| + 1
  {
    Flat(s.logs, s.cuts, |s.cuts|)
  }

  lemma {:induction false} FlatReplays<T>(s: State<T>, k: nat)
    requires Replays(s) && |s.logs| == |s.cuts| + 1 && k < |s.logs|
    requires forall g :: 0 <= g < |s.cuts| ==> s.cuts[g].act == ClearAct
    ensures Replay([], Flat(s.logs, s.cuts, k)) == Some(Live(s.mem, s.chains[k]))
  {
    if k > 0 {
      FlatReplays(s, k - 1);
      var before := Flat(s.logs, s.cuts, k - 1);
      ReplayOne([], before, s.cuts[k - 1]);
      ReplayConcat([], before + [s.cuts[k - 1]], s.logs[k]);
    }
  }

  lemma SortedConcat<T>(a: seq<Entry<T>>, b: seq<Entry<T>>, mid: nat)
    requires Sorted(a) && Sorted(b)
    requires forall i :: 0 <= i < |a| ==> a[i].point <= mid
    requires forall i :: 0 <= i < |b| ==> mid <= b[i].point
    ensures Sorted(a + b)
  {
  }

  lemma {:induction false} FlatSorted<T>(s: State<T>, k: nat)
    requires Timed(s) && k < |s.logs|
    ensures Sorted(Flat(s.logs, s.cuts, k))
    ensures forall i :: 0 <= i < |Flat(s.logs, s.cuts, k)| ==>
            Flat(s.logs, s.cuts, k)[i].point <= Closing(s.cuts, s.clock, k)
  {
    var log := s.logs[k];
    assert LogTimed(s.clock, s.cuts, k, log);
    forall i | 0 <= i < |log|
      ensures Opening(s.cuts, k) <= log[i].point <= Closing(s.cuts, s.clock, k)
    {
      assert EntryTimed(s.clock, s.cuts, k, log[i]);
    }
    if k > 0 {
      FlatSorted(s, k - 1);
      var before := Flat(s.logs, s.cuts, k - 1);
      var cut := s.cuts[k - 1];
      SortedConcat(before, [cut], cut.point);
      SortedConcat(before + [cut], log, cut.point);
      assert cut.point <= Closing(s.cuts, s.clock, k);
    }
  }

  lemma {:induction false} FlatTimes<T>(logs: seq<seq<Entry<T>>>, cuts: seq<Entry<T>>, k: nat, c: nat)
    requires k <= |cuts| && k < |logs|
    ensures Times(Flat(logs, cuts, k), c) == TimesAll(logs[..k + 1], c) + Times(cuts[..k], c)
  {
    assert logs[..k + 1][..k] == logs[..k];
    if k == 0 {
      assert TimesAll(logs[..0], c) == 0;
    } else {
      FlatTimes(logs, cuts, k - 1, c);
      var before := Flat(logs, cuts, k - 1);
      TimesOne(before, cuts[k - 1], c);
      TimesConcat(before + [cuts[k - 1]], logs[k], c);
      assert cuts[..k] == cuts[..k - 1] + [cuts[k - 1]];
      TimesOne(cuts[..k - 1], cuts[k - 1], c);
    }
  }

  lemma {:induction false} TimesConcat<T>(a: seq<Entry<T>>, b: seq<Entry<T>>, c: nat)
    ensures Times(a + b, c) == Times(a, c) + Times(b, c)
  {
    if b == [] {
      assert a + b == a;
    } else {
      TimesConcat(a, b[..|b| - 1], c);
      assert a + b == a + b[..|b| - 1] + [b[|b| - 1]];
      TimesOne(a + b[..|b| - 1], b[|b| - 1], c);
    }
  }

  /** Every entry of the linearization is an entry of some log, or a Clear. */
  lemma {:induction false} FlatEntry<T>(s: State<T>, k: nat, i: nat)
    requires |s.logs| == |s.cuts| + 1 && k < |s.logs| && i < |Flat(s.logs, s.cuts, k)|
    ensures var e := Flat(s.logs, s.cuts, k)[i];
            (exists g, j :: 0 <= g < |s.logs| && 0 <= j < |s.logs[g]| && s.logs[g][j] == e) ||
            (exists g :: 0 <= g < |s.cuts| && s.cuts[g] == e)
  {
    if k > 0 {
      var before := Flat(s.logs, s.cuts, k - 1);
      if i < |before| {
        FlatEntry(s, k - 1, i);
      } else if i == |before| {
        assert Flat(s.logs, s.cuts, k)[i] == s.cuts[k - 1];
      } else {
        assert Flat(s.logs, s.cuts, k)[i] == s.logs[k][i - |before| - 1];
      }
    } else {
      assert Flat(s.logs, s.cuts, k)[i] == s.logs[0][i];
    }
  }

  // ---------- The theorem ----------

  /** lin explains the state s:
      - applied in order to the empty list, its effects are all legal and leave exactly the
        live elements reachable from head;
      - each effect is one its operation may have, has its point inside its call, and the
        points do not decrease along lin;
      - a call that has returned appears as often as its result says, and the result reports
        what the effect did. */
  ghost predicate Explains<T>(s: State<T>, lin: seq<Entry<T>>) {
    && |s.chains| > 0
    && Replay([], lin) == Some(Live(s.mem, s.chains[|s.chains| - 1]))
    && Sorted(lin)
    && (forall i :: 0 <= i < |lin| ==> Matches(lin[i].op, lin[i].act) && lin[i].call <= lin[i].point < s.clock)
    && (forall i :: 0 <= i < |lin| && lin[i].call in s.ended ==>
          var call := s.ended[lin[i].call];
          call.op == lin[i].op && Reports(lin[i].op, lin[i].act, call.res) && lin[i].point <= call.end)
    && (forall c :: c in s.ended ==>
          Times(lin, c) == s.ended[c].made && Settled(s.ended[c].op, s.ended[c].res, s.ended[c].made))
  }

  /** An entry's point is before its call's return. */
  ghost predicate InTime<T>(s: State<T>) {
    && (forall g :: 0 <= g < |s.logs| ==> LogClosed(s, s.logs[g]))
    && (forall g :: 0 <= g < |s.cuts| ==> Closed(s, s.cuts[g]) && s.cuts[g].act == ClearAct)
  }

  ghost predicate LogClosed<T>(s: State<T>, log: seq<Entry<T>>) {
    forall i :: 0 <= i < |log| ==> Closed(s, log[i])
  }

  ghost predicate Closed<T>(s: State<T>, e: Entry<T>) {
    && e.call <= e.point < s.clock
    && (e.call in s.ended ==> e.point <= s.ended[e.call].end)
  }

  lemma MoveInTime<T>(s: State<T>, t: nat)
    requires Shape(s) && Timed(s) && CallsApart(s) && InTime(s) && Can(s, Move(t))
    ensures InTime(DoMove(s, t))
  {
    var s' := DoMove(s, t);
    var th := s.threads[t];
    var e := Turn(s.mem, th.pc).1;
    TurnEffect(s, t);
    DoTimed(s, Move(t));
    forall g, i | 0 <= g < |s'.logs| && 0 <= i < |s'.logs[g]|
      ensures Closed(s', s'.logs[g][i])
    {
      NewLogs(s, t, th, e, g, i);
      assert g < |s.logs| ==> LogClosed(s, s.logs[g]);
      assert LogTimed(s'.clock, s'.cuts, g, s'.logs[g]);
      assert EntryTimed(s'.clock, s'.cuts, g, s'.logs[g][i]);
      assert Counts(e) ==> EntryOf(s, t, th, e).call == th.call;
    }
  }

  lemma DoInTime<T>(s: State<T>, l: Label<T>)
    requires Shape(s) && Timed(s) && CallsApart(s) && InTime(s) && Can(s, l)
    ensures InTime(Do(s, l))
  {
    var s' := Do(s, l);
    if l.Move? {
      MoveInTime(s, l.tid);
    } else {
      forall g, i | 0 <= g < |s'.logs| && 0 <= i < |s'.logs[g]|
        ensures Closed(s', s'.logs[g][i])
      {
        assert LogClosed(s, s.logs[g]);
      }
      forall g | 0 <= g < |s'.cuts|
        ensures Closed(s', s'.cuts[g])
      {
        assert Closed(s, s.cuts[g]);
      }
    }
  }

  lemma InitInTime<T>(s: State<T>)
    requires Init(s)
    ensures InTime(s)
  {
  }

  lemma {:induction false} RunInTime<T>(run: seq<State<T>>, labels: seq<Label<T>>, i: nat)
    requires IsRun(run, labels) && i < |run|
    ensures InTime(run[i])
  {
    if i == 0 {
      InitInTime(run[0]);
    } else {
      RunInTime(run, labels, i - 1);
      assert Shape(run[i - 1]) by { RunShape(run, labels, i - 1); }
      assert Timed(run[i - 1]) by { RunTimed(run, labels, i - 1); }
      assert CallsApart(run[i - 1]) by { RunApart(run, labels, i - 1); }
      assert Can(run[i - 1], labels[i - 1]);
      DoInTime(run[i - 1], labels[i - 1]);
    }
  }

  lemma LinEntry<T>(s: State<T>, i: nat)
    requires Shape(s) && AllKnown(s) && InTime(s) && i < |Lin(s)|
    ensures Known(s.threads, s.ended, Lin(s)[i]) && Closed(s, Lin(s)[i])
  {
    FlatEntry(s, |s.cuts|, i);
  }

  lemma LinTimes<T>(s: State<T>, c: nat)
    requires |s.logs| == |s.cuts| + 1
    ensures Times(Lin(s), c) == Tally(s, c)
  {
    FlatTimes(s.logs, s.cuts, |s.cuts|, c);
    assert s.logs[..|s.logs|] == s.logs && s.cuts[..|s.cuts|] == s.cuts;
  }

  /** The invariants together explain the state. */
  lemma Explained<T>(s: State<T>)
    requires Shape(s) && Replays(s) && Timed(s) && Accounts(s) && InTime(s)
    ensures Explains(s, Lin(s))
  {
    FlatReplays(s, |s.cuts|);
    FlatSorted(s, |s.cuts|);
    forall j | 0 <= j < |Lin(s)|
      ensures Known(s.threads, s.ended, Lin(s)[j]) && Closed(s, Lin(s)[j])
    {
      LinEntry(s, j);
    }
    forall c | c in s.ended
      ensures Times(Lin(s), c) == s.ended[c].made
    {
      LinTimes(s, c);
    }
  }

  /** In every state of every run, the effects so far explain the state. */
  lemma Linearizable<T>(run: seq<State<T>>, labels: seq<Label<T>>, i: nat)
    requires IsRun(run, labels) && i < |run|
    ensures |run[i].logs| == |run[i].cuts| + 1 && Explains(run[i], Lin(run[i]))
  {
    var s := run[i];
    RunShape(run, labels, i);
    RunReplays(run, labels, i);
    RunTimed(run, labels, i);
    RunAccounts(run, labels, i);
    RunInTime(run, labels, i);
    Explained(s);
  }

  /** Real time is respected: an effect never comes before the effect of a call that had
      already returned when its own call began. */
  lemma RealTime<T>(run: seq<State<T>>, labels: seq<Label<T>>, i: nat, j: nat, k: nat)
    requires IsRun(run, labels) && i < |run|
    requires |run[i].logs| == |run[i].cuts| + 1
    requires j < |Lin(run[i])| && k < |Lin(run[i])|
    requires var first := Lin(run[i])[j].call; first in run[i].ended && run[i].ended[first].end < Lin(run[i])[k].call
    ensures j < k
  {
    Linearizable(run, labels, i);
    var lin := Lin(run[i]);
    assert lin[j].point < lin[k].point;
  }

  /** Thread t is about to put nodes on a chain that is already detached. */
  ghost predicate LandsLate<T>(s: State<T>, t: nat) {
    Can(s, Move(t)) &&
    var th := s.threads[t];
    var e := Turn(s.mem, th.pc).1;
    e.Publish? && SpotGen(s, th, e.pred) < |s.cuts|
  }

  /** An operation that puts nodes on a chain already detached does so before the Clear that
      detached it, that Clear lies inside the operation's interval, and what is attached to
      head does not change. */
  lemma LandsBeforeClear<T>(s: State<T>, t: nat)
    requires Shape(s) && Timed(s) && LandsLate(s, t)
    ensures var th := s.threads[t]; var e := Turn(s.mem, th.pc).1; var g := SpotGen(s, th, e.pred);
            var s' := DoMove(s, t);
            && th.call <= s.cuts[g].point < s.clock
            && g < |s'.logs| && s'.logs[g] != []
            && s'.logs[g][|s'.logs[g]| - 1].call == th.call && s'.logs[g][|s'.logs[g]| - 1].point == s.cuts[g].point
            && |s'.chains| == |s.chains| && s'.chains[Last(s)] == s.chains[Last(s)]
  {
    var th := s.threads[t];
    var e := Turn(s.mem, th.pc).1;
    TurnEffect(s, t);
    SpotIsNext(s, th, e.pred);
    PointInCall(s, t, SpotGen(s, th, e.pred));
  }

  // ---------- The ledger ----------

  ghost function Published<T>(a: Act<T>): multiset<T> {
    match a
    case AppendAct(vals) => multiset(vals)
    case InsertAct(_, v) => multiset{v}
    case _ => multiset{}
  }

  ghost function Written<T>(a: Act<T>): multiset<T> {
    if a.SetAct? && a.box.Ref? then multiset{a.box.value} else multiset{}
  }

  ghost function Removed<T>(a: Act<T>): multiset<T> {
    if a.RemoveAct? && a.taken.Ref? then multiset{a.taken.value} else multiset{}
  }

  ghost function Replaced<T>(a: Act<T>): multiset<T> {
    if a.SetAct? && a.taken.Ref? then multiset{a.taken.value} else multiset{}
  }

  ghost function Sum<T>(log: seq<Entry<T>>, f: Act<T> -> multiset<T>): multiset<T> {
    if log == [] then multiset{} else Sum(log[..|log| - 1], f) + f(log[|log| - 1].act)
  }

  ghost function SumAll<T>(logs: seq<seq<Entry<T>>>, f: Act<T> -> multiset<T>): multiset<T> {
    if logs == [] then multiset{} else SumAll(logs[..|logs| - 1], f) + Sum(logs[|logs| - 1], f)
  }

  /** The live values of every chain, attached or detached. */
  ghost function LiveAll<T>(m: Mem<T>, chains: seq<seq<nat>>): multiset<T> {
    if chains == [] then multiset{}
    else LiveAll(m, chains[..|chains| - 1]) + multiset(Live(m, chains[|chains| - 1]))
  }

  lemma SplitCount<T>(c: seq<T>, i: nat, x: T)
    requires i <= |c|
    ensures multiset(c)[x] == multiset(c[..i])[x] + multiset(c[i..])[x]
  {
    assert c == c[..i] + c[i..];
  }

  lemma InsertCount<T>(c: seq<T>, i: nat, v: T, x: T)
    requires i <= |c|
    ensures multiset(c[..i] + [v] + c[i..])[x] == multiset(c)[x] + multiset{v}[x]
  {
    SplitCount(c, i, x);
  }

  lemma RemoveCount<T>(c: seq<T>, i: nat, x: T)
    requires i < |c|
    ensures multiset(c[..i] + c[i + 1..])[x] + multiset{c[i]}[x] == multiset(c)[x]
  {
    var d := c[..i] + c[i + 1..];
    InsertCount(d, i, c[i], x);
    assert d[..i] == c[..i] && d[i..] == c[i + 1..];
    assert c == c[..i] + [c[i]] + c[i + 1..];
  }

  lemma SetCount<T>(c: seq<T>, i: nat, v: T, x: T)
    requires i < |c|
    ensures multiset(c[i := v])[x] + multiset{c[i]}[x] == multiset(c)[x] + multiset{v}[x]
  {
    RemoveCount(c, i, x);
    RemoveCount(c[i := v], i, x);
    assert c[i := v][..i] == c[..i] && c[i := v][i + 1..] == c[i + 1..];
  }

  lemma AppendCount<T>(c: seq<T>, vals: seq<T>, x: T)
    ensures multiset(c + vals)[x] == multiset(c)[x] + multiset(vals)[x]
  {
  }

  lemma ApplyBalance<T>(c: seq<T>, a: Act<T>, x: T)
    requires Fits(c, a) && !a.ClearAct?
    ensures multiset(c)[x] + Published(a)[x] + Written(a)[x] ==
            multiset(Apply(c, a))[x] + Removed(a)[x] + Replaced(a)[x]
  {
    if a.AppendAct? {
      AppendCount(c, a.vals, x);
    } else if a.InsertAct? {
      InsertCount(c, a.pos, a.val, x);
    } else if a.SetAct? {
      SetCount(c, a.pos, a.box.value, x);
    } else {
      RemoveCount(c, a.pos, x);
    }
  }

  lemma {:induction false} LogBalance<T>(log: seq<Entry<T>>, c: seq<T>, x: T)
    requires Replay([], log) == Some(c)
    requires forall i :: 0 <= i < |log| ==> !log[i].act.ClearAct?
    ensures Sum(log, Published)[x] + Sum(log, Written)[x] ==
            multiset(c)[x] + Sum(log, Removed)[x] + Sum(log, Replaced)[x]
  {
    if log != [] {
      var n := |log| - 1;
      var d := Replay([], log[..n]).value;
      LogBalance(log[..n], d, x);
      ApplyBalance(d, log[n].act, x);
    }
  }

  lemma {:induction false} AllBalance<T>(m: Mem<T>, chains: seq<seq<nat>>, logs: seq<seq<Entry<T>>>, x: T)
    requires |logs| == |chains|
    requires forall g :: 0 <= g < |chains| ==> Replay([], logs[g]) == Some(Live(m, chains[g]))
    requires forall g, i :: 0 <= g < |logs| && 0 <= i < |logs[g]| ==> !logs[g][i].act.ClearAct?
    ensures SumAll(logs, Published)[x] + SumAll(logs, Written)[x]
            == LiveAll(m, chains)[x] + SumAll(logs, Removed)[x] + SumAll(logs, Replaced)[x]
  {
    if logs != [] {
      var n := |logs| - 1;
      AllBalance(m, chains[..n], logs[..n], x);
      LogBalance(logs[n], Live(m, chains[n]), x);
    }
  }

  /** The ledger of any run: what was published or written by Set is what is live, on the
      attached chain or a detached one, together with what was removed and what Set replaced. */
  lemma Ledger<T(!new)>(run: seq<State<T>>, labels: seq<Label<T>>, i: nat)
    requires IsRun(run, labels) && i < |run|
    ensures var s := run[i];
            SumAll(s.logs, Published) + SumAll(s.logs, Written)
            == LiveAll(s.mem, s.chains) + SumAll(s.logs, Removed) + SumAll(s.logs, Replaced)
  {
    var s := run[i];
    RunReplays(run, labels, i);
    RunNoClear(run, labels, i);
    var credit := SumAll(s.logs, Published) + SumAll(s.logs, Written);
    var debit := LiveAll(s.mem, s.chains) + SumAll(s.logs, Removed) + SumAll(s.logs, Replaced);
    forall x: T
      ensures credit[x] == debit[x]
    {
      AllBalance(s.mem, s.chains, s.logs, x);
    }
  }

  ghost predicate NoClear<T>(logs: seq<seq<Entry<T>>>) {
    forall g, j :: 0 <= g < |logs| && 0 <= j < |logs[g]| ==> !logs[g][j].act.ClearAct?
  }

  lemma EffectNoClear<T>(s: State<T>, t: nat, th: Thread<T>, e: Effect<T>)
    requires ChainsOk(s.mem, s.home, s.chains) && |s.logs| == |s.chains| && EffectOk(s, t, th, e)
    requires NoClear(s.logs)
    ensures NoClear(LandLogs(s, t, th, e))
  {
    var logs: seq<seq<Entry<T>>> := LandLogs(s, t, th, e);
    forall g, j | 0 <= g < |logs| && 0 <= j < |logs[g]|
      ensures !logs[g][j].act.ClearAct?
    {
      NewLogs(s, t, th, e, g, j);
    }
  }

  lemma DoNoClear<T>(s: State<T>, l: Label<T>)
    requires Shape(s) && Can(s, l) && NoClear(s.logs)
    ensures NoClear(Do(s, l).logs)
  {
    if l.Move? {
      TurnEffect(s, l.tid);
      EffectNoClear(s, l.tid, s.threads[l.tid], Turn(s.mem, s.threads[l.tid].pc).1);
    }
  }

  lemma {:induction false} RunNoClear<T>(run: seq<State<T>>, labels: seq<Label<T>>, i: nat)
    requires IsRun(run, labels) && i < |run|
    ensures NoClear(run[i].logs)
  {
    if i > 0 {
      RunNoClear(run, labels, i - 1);
      RunShape(run, labels, i - 1);
      assert Can(run[i - 1], labels[i - 1]) && run[i] == Do(run[i - 1], labels[i - 1]);
      DoNoClear(run[i - 1], labels[i - 1]);
    }
  }
}
