/**
 What every run of the copy-on-write list keeps: published slices are never written again,
 the contents are the mutators applied in lock order, and every call answers for one state
 inside its own interval.
 */
module CowListSafety {
  import opened CowOperations
  import opened CowListMachine

  /** Between Lock and Unlock. */
  predicate InSection<T>(pc: PC<T>) {
    pc.Locked? || pc.Fill? || pc.Unlock? || (pc.Scan? && pc.task.Mutate?)
  }

  // ---------- What is shared ----------

  /** The states are the mutators applied one after the other, each with the result it gave. */
  ghost predicate Composed<T>(log: seq<Entry<T>>, states: seq<seq<T>>) {
    && |states| == |log| + 1
    && forall i {:trigger log[i]} :: 0 <= i < |log| ==>
       Apply(log[i].op, states[i]) == Outcome(states[i + 1], log[i].res)
  }

  /** Every published slice still holds what it was published with. */
  ghost predicate Frozen<T>(mem: seq<seq<T>>, pubs: seq<nat>, states: seq<seq<T>>) {
    && |pubs| == |states|
    && forall i {:trigger pubs[i]} :: 0 <= i < |pubs| ==> pubs[i] < |mem| && mem[pubs[i]] == states[i]
  }

  /** Mutators take effect in the order they took the lock; one may still be at work. */
  ghost predicate LockOrder<T>(sh: Shared<T>) {
    && |sh.log| <= |sh.locks| <= |sh.log| + 1
    && forall i {:trigger sh.log[i]} :: 0 <= i < |sh.log| ==> sh.locks[i] == (sh.log[i].tid, sh.log[i].op)
  }

  ghost predicate SharedOk<T>(sh: Shared<T>) {
    && Composed(sh.log, sh.states) && Frozen(sh.mem, sh.pubs, sh.states) && LockOrder(sh)
    && sh.data == sh.pubs[|sh.log|]
  }

  // ---------- What each thread knows ----------

  /** The result res is right for state number at, which lies in the interval. */
  ghost predicate Answered<T>(sh: Shared<T>, t: nat, task: Task<T>, began: nat, at: nat, ended: nat, res: Result<T>) {
    && began <= at <= ended <= |sh.log| < |sh.states|
    && match task
       case Read(answer) => res == answer(sh.states[at])
       case Mutate(op) =>
         if Skips(op) then Apply(op, sh.states[at]) == Outcome(sh.states[at], res)
         else at < ended && sh.log[at] == Entry(t, op, res)
  }

  /** seen is what has been read so far of a slice that holds s. */
  ghost predicate SeenOf<T>(seen: seq<T>, s: seq<T>) {
    |seen| <= |s| && seen == s[..|seen|]
  }

  /** The new slice has its first j slots written. */
  ghost predicate Filled<T>(op: Op<T>, seen: seq<T>, slots: seq<T>, j: nat) {
    && Refusal(op, seen).None? && NewLen(op, seen) == |slots| && j <= |slots|
    && forall k :: 0 <= k < j ==> slots[k] == Slot(op, seen, k)
  }

  ghost predicate Working<T>(sh: Shared<T>, t: nat, op: Op<T>) {
    sh.mutex == By(t) && !Skips(op) && |sh.locks| == |sh.log| + 1 && sh.locks[|sh.log|] == (t, op)
  }

  ghost predicate ThreadOk<T>(sh: Shared<T>, t: nat, th: Thread<T>) {
    && th.began <= |sh.log| < |sh.states|
    && |sh.pubs| == |sh.states|
    && match th.pc
       case Idle => true
       case Start(task) => task == th.task
       case Locked(op) => th.task == Mutate(op) && Working(sh, t, op)
       case Scan(task, snap, seen) =>
         && task == th.task
         && (match task
             case Read(_) => th.began <= th.at <= |sh.log| && snap == sh.pubs[th.at] && SeenOf(seen, sh.states[th.at])
             case Mutate(op) =>
               Working(sh, t, op) && !Blind(op) && snap == sh.data && SeenOf(seen, sh.states[|sh.log|]))
       case Fill(op, seen, made, j) =>
         && th.task == Mutate(op) && Working(sh, t, op)
         && (if Blind(op) then seen == [] else seen == sh.states[|sh.log|])
         && made < |sh.mem| && made !in sh.pubs && Filled(op, seen, sh.mem[made], j)
       case Unlock(res) =>
         && th.task.Mutate? && !Skips(th.task.op) && sh.mutex == By(t) && |sh.locks| == |sh.log|
         && Answered(sh, t, th.task, th.began, th.at, |sh.log|, res)
       case Done(res) => Answered(sh, t, th.task, th.began, th.at, |sh.log|, res)
  }

  ghost predicate CallOk<T>(sh: Shared<T>, c: Call<T>) {
    Answered(sh, c.tid, c.task, c.began, c.at, c.ended, c.res)
  }

  /** The mutex is held exactly by the thread in its section. */
  ghost predicate Exclusive<T>(mutex: Mutex, threads: seq<Thread<T>>) {
    forall t :: 0 <= t < |threads| ==> (InSection(threads[t].pc) <==> mutex == By(t))
  }

  ghost predicate Inv<T>(s: State<T>) {
    && SharedOk(s.sh) && Exclusive(s.sh.mutex, s.threads)
    && (s.sh.mutex.Free? ==> |s.sh.locks| == |s.sh.log|)
    && (s.sh.mutex.By? ==> s.sh.mutex.holder < |s.threads|)
    && (forall t {:trigger s.threads[t]} :: 0 <= t < |s.threads| ==> ThreadOk(s.sh, t, s.threads[t]))
    && forall i {:trigger s.calls[i]} :: 0 <= i < |s.calls| ==> CallOk(s.sh, s.calls[i])
  }

  // ---------- What steps of one thread leave to the others ----------

  /** History only grows. */
  ghost predicate Extends<T>(sh: Shared<T>, sh': Shared<T>) {
    && |sh.log| <= |sh'.log| && sh.log == sh'.log[..|sh.log|]
    && |sh.states| <= |sh'.states| && sh.states == sh'.states[..|sh.states|]
    && |sh.pubs| <= |sh'.pubs| && sh.pubs == sh'.pubs[..|sh.pubs|]
  }

  lemma ExtendsOn<T>(a: Shared<T>, b: Shared<T>, c: Shared<T>)
    requires Extends(a, b) && Extends(b, c)
    ensures Extends(a, c)
  {
  }

  lemma AnsweredLater<T>(sh: Shared<T>, sh': Shared<T>, t: nat, task: Task<T>, began: nat, at: nat, ended: nat,
                         later: nat, res: Result<T>)
    requires Answered(sh, t, task, began, at, ended, res) && Extends(sh, sh') && |sh'.log| < |sh'.states|
    requires ended <= later <= |sh'.log|
    ensures Answered(sh', t, task, began, at, later, res)
  {
    assert sh'.states[at] == sh.states[at];
    assert at < |sh.log| ==> sh'.log[at] == sh.log[at];
  }

  lemma OutsideKeeps<T>(sh: Shared<T>, sh': Shared<T>, t: nat, th: Thread<T>)
    requires ThreadOk(sh, t, th) && !InSection(th.pc) && Extends(sh, sh')
    requires |sh'.states| == |sh'.pubs| == |sh'.log| + 1
    ensures ThreadOk(sh', t, th)
  {
    match th.pc
    case Done(res) => AnsweredLater(sh, sh', t, th.task, th.began, th.at, |sh.log|, |sh'.log|, res);
    case Scan(_, _, _) =>
      assert sh'.pubs[th.at] == sh.pubs[th.at] && sh'.states[th.at] == sh.states[th.at];
    case _ =>
  }

  /** A step by a thread outside its section that does not take the lock changes nothing shared. */
  lemma QuietTurn<T>(sh: Shared<T>, t: nat, th: Thread<T>, zero: T)
    requires SharedOk(sh) && ThreadOk(sh, t, th) && Enabled(sh, th.pc) && !InSection(th.pc)
    requires th.pc.Start? && th.pc.task.Mutate? ==> Skips(th.pc.task.op)
    ensures var (sh', pc) := Turn(sh, t, th.pc, zero);
            sh' == sh && !InSection(pc) && ThreadOk(sh, t, Thread(pc, th.task, th.began, NextAt(sh, th)))
  {
    match th.pc
    case Start(Mutate(op)) => SkipMeans(op, sh.states[|sh.log|]);
    case Scan(task, snap, seen) =>
      assert sh.mem[sh.pubs[th.at]] == sh.states[th.at];
      assert |seen| == |sh.mem[snap]| ==> seen == sh.states[th.at];
    case _ =>
  }

  lemma LockTurn<T>(sh: Shared<T>, t: nat, th: Thread<T>, zero: T)
    requires SharedOk(sh) && ThreadOk(sh, t, th) && Enabled(sh, th.pc)
    requires th.pc.Start? && th.pc.task.Mutate? && !Skips(th.pc.task.op) && |sh.locks| == |sh.log|
    ensures var (sh', pc) := Turn(sh, t, th.pc, zero);
            && SharedOk(sh') && Extends(sh, sh') && sh'.mutex == By(t) && InSection(pc)
            && ThreadOk(sh', t, Thread(pc, th.task, th.began, NextAt(sh, th)))
  {
  }

  /** Taking effect: the current slice holds what the operation makes of the last state. */
  lemma LoggedOk<T>(sh: Shared<T>, data: nat, t: nat, op: Op<T>, res: Result<T>)
    requires SharedOk(sh) && Working(sh, t, op) && data < |sh.mem|
    requires Apply(op, sh.states[|sh.log|]) == Outcome(sh.mem[data], res)
    ensures var sh' := Logged(sh.(data := data), t, op, res);
            && SharedOk(sh') && Extends(sh, sh') && |sh'.locks| == |sh'.log| && sh'.mutex == By(t)
            && sh'.log[|sh.log|] == Entry(t, op, res) && |sh'.log| == |sh.log| + 1
  {
  }

  lemma MakeOk<T>(sh: Shared<T>, t: nat, op: Op<T>, seen: seq<T>, th: Thread<T>, zero: T)
    requires SharedOk(sh) && Working(sh, t, op) && th.task == Mutate(op) && th.began <= |sh.log|
    requires Refusal(op, seen).None? && if Blind(op) then seen == [] else seen == sh.states[|sh.log|]
    ensures var (sh', pc) := MakeSlice(sh, op, seen, zero);
            && SharedOk(sh') && Extends(sh, sh') && sh'.mutex == By(t) && InSection(pc)
            && ThreadOk(sh', t, Thread(pc, th.task, th.began, |sh.log|))
  {
  }

  lemma ScanTurn<T>(sh: Shared<T>, t: nat, th: Thread<T>, zero: T)
    requires SharedOk(sh) && ThreadOk(sh, t, th) && th.pc.Scan? && th.pc.task.Mutate? && Enabled(sh, th.pc)
    ensures var (sh', pc) := Turn(sh, t, th.pc, zero);
            && SharedOk(sh') && Extends(sh, sh') && sh'.mutex == By(t) && InSection(pc)
            && ThreadOk(sh', t, Thread(pc, th.task, th.began, |sh.log|))
  {
    var op, seen, snap := th.pc.task.op, th.pc.seen, th.pc.snap;
    assert sh.mem[sh.pubs[|sh.log|]] == sh.states[|sh.log|];
    if |seen| == |sh.mem[snap]| {
      assert seen == sh.states[|sh.log|];
      if Refusal(op, seen).Some? {
        RefusalMeans(op, seen);
        LoggedOk(sh, sh.data, t, op, Refusal(op, seen).value);
      } else {
        MakeOk(sh, t, op, seen, th, zero);
      }
    }
  }

  lemma FillTurn<T>(sh: Shared<T>, t: nat, th: Thread<T>, zero: T)
    requires SharedOk(sh) && ThreadOk(sh, t, th) && th.pc.Fill? && Enabled(sh, th.pc)
    ensures var (sh', pc) := Turn(sh, t, th.pc, zero);
            && SharedOk(sh') && Extends(sh, sh') && sh'.mutex == By(t) && InSection(pc)
            && ThreadOk(sh', t, Thread(pc, th.task, th.began, |sh.log|))
  {
    var op, seen, made, j := th.pc.op, th.pc.seen, th.pc.made, th.pc.j;
    if j < |sh.mem[made]| {
      var mem' := sh.mem[made := sh.mem[made][j := Slot(op, seen, j)]];
      assert Frozen(mem', sh.pubs, sh.states);
    } else {
      if Blind(op) {
        BlindMeans(op, sh.states[|sh.log|], sh.mem[made]);
      } else {
        SlotsMean(op, seen, sh.mem[made]);
      }
      LoggedOk(sh, made, t, op, Reply(op, seen));
    }
  }

  /** A step inside the section leaves the thread inside it, or lets go of the mutex. */
  lemma SectionTurn<T>(sh: Shared<T>, t: nat, th: Thread<T>, zero: T)
    requires SharedOk(sh) && ThreadOk(sh, t, th) && InSection(th.pc) && Enabled(sh, th.pc)
    ensures var (sh', pc) := Turn(sh, t, th.pc, zero);
            && SharedOk(sh') && Extends(sh, sh')
            && (if InSection(pc) then sh'.mutex == By(t) else sh'.mutex.Free? && |sh'.locks| == |sh'.log|)
            && ThreadOk(sh', t, Thread(pc, th.task, th.began, NextAt(sh, th)))
  {
    match th.pc
    case Locked(op) =>
      if Blind(op) {
        MakeOk(sh, t, op, [], th, zero);
      }
    case Scan(_, _, _) => ScanTurn(sh, t, th, zero);
    case Fill(_, _, _, _) => FillTurn(sh, t, th, zero);
    case Unlock(_) =>
  }

  // ---------- Runs ----------

  lemma ThreadStep<T>(s: State<T>, t: nat, zero: T)
    requires Inv(s) && Can(s, Move(t))
    ensures var th := s.threads[t]; var (sh', pc) := Turn(s.sh, t, th.pc, zero);
            && SharedOk(sh') && Extends(s.sh, sh')
            && ThreadOk(sh', t, Thread(pc, th.task, th.began, NextAt(s.sh, th)))
            && (if InSection(pc) then sh'.mutex == By(t)
                else if InSection(th.pc) then sh'.mutex.Free? && |sh'.locks| == |sh'.log| else sh' == s.sh)
            && (sh' != s.sh ==> s.sh.mutex.Free? || s.sh.mutex == By(t))
  {
    var th := s.threads[t];
    if InSection(th.pc) {
      SectionTurn(s.sh, t, th, zero);
    } else if th.pc.Start? && th.pc.task.Mutate? && !Skips(th.pc.task.op) {
      LockTurn(s.sh, t, th, zero);
    } else {
      QuietTurn(s.sh, t, th, zero);
    }
  }

  lemma CallLater<T>(sh: Shared<T>, sh': Shared<T>, c: Call<T>)
    requires CallOk(sh, c) && Extends(sh, sh') && |sh'.log| < |sh'.states|
    ensures CallOk(sh', c)
  {
    AnsweredLater(sh, sh', c.tid, c.task, c.began, c.at, c.ended, c.ended, c.res);
  }

  lemma MoveInv<T>(s: State<T>, t: nat, zero: T)
    requires Inv(s) && Can(s, Move(t))
    ensures Inv(Do(s, Move(t), zero)) && Extends(s.sh, Do(s, Move(t), zero).sh)
  {
    var s' := Do(s, Move(t), zero);
    var sh, sh', th := s.sh, s'.sh, s.threads[t];
    ThreadStep(s, t, zero);
    forall u {:trigger s'.threads[u]} | 0 <= u < |s'.threads|
      ensures ThreadOk(sh', u, s'.threads[u])
    {
      if u != t && sh' != sh {
        assert !InSection(s.threads[u].pc);
        OutsideKeeps(sh, sh', u, s.threads[u]);
      }
    }
    forall i {:trigger s'.calls[i]} | 0 <= i < |s'.calls|
      ensures CallOk(sh', s'.calls[i])
    {
      if i < |s.calls| {
        CallLater(sh, sh', s.calls[i]);
      }
    }
  }

  lemma DoInv<T>(s: State<T>, l: Label<T>, zero: T)
    requires Inv(s) && Can(s, l)
    ensures Inv(Do(s, l, zero)) && Extends(s.sh, Do(s, l, zero).sh)
  {
    if l.Move? {
      MoveInv(s, l.t, zero);
    }
  }

  lemma {:induction false} RunInv<T(!new)>(run: seq<State<T>>, labels: seq<Label<T>>, zero: T, i: nat)
    requires IsRun(run, labels, zero) && i < |run|
    ensures Inv(run[i])
  {
    if i > 0 {
      RunInv(run, labels, zero, i - 1);
      var l := labels[i - 1];
      DoInv(run[i - 1], l, zero);
    }
  }

  lemma {:induction false} RunExtends<T(!new)>(run: seq<State<T>>, labels: seq<Label<T>>, zero: T, i: nat, j: nat)
    requires IsRun(run, labels, zero) && i <= j < |run|
    ensures Extends(run[i].sh, run[j].sh)
  {
    if i < j {
      RunExtends(run, labels, zero, i, j - 1);
      var l := labels[j - 1];
      RunInv(run, labels, zero, j - 1);
      DoInv(run[j - 1], l, zero);
      ExtendsOn(run[i].sh, run[j - 1].sh, run[j].sh);
    }
  }

  // ---------- Theorems ----------

  /** A slice, once published, is never written again: at any later point of the run it holds
      what it held when it was published. */
  lemma PublishedForever<T(!new)>(run: seq<State<T>>, labels: seq<Label<T>>, zero: T, i: nat, j: nat, k: nat)
    requires IsRun(run, labels, zero) && i <= j < |run| && k <= |run[i].sh.log|
    ensures k < |run[i].sh.pubs| && k < |run[i].sh.states|
    ensures var a := run[i].sh.pubs[k];
            && a < |run[i].sh.mem| && a < |run[j].sh.mem|
            && run[j].sh.mem[a] == run[i].sh.mem[a] == run[i].sh.states[k]
  {
    RunInv(run, labels, zero, i);
    RunInv(run, labels, zero, j);
    RunExtends(run, labels, zero, i, j);
    assert run[j].sh.pubs[k] == run[i].sh.pubs[k] && run[j].sh.states[k] == run[i].sh.states[k];
  }

  /** No lost update: a step that changes the pointer replaces the slice it finds there by what
      one operation makes of that very slice. */
  lemma NoLostUpdate<T(!new)>(run: seq<State<T>>, labels: seq<Label<T>>, zero: T, i: nat)
    requires IsRun(run, labels, zero) && i + 1 < |run| && run[i].sh.data != run[i + 1].sh.data
    ensures var sh, sh' := run[i].sh, run[i + 1].sh;
            && |sh'.log| == |sh.log| + 1 && sh.data < |sh.mem| && sh'.data < |sh'.mem|
            && var e := sh'.log[|sh.log|]; Means(e.op, sh.mem[sh.data], sh'.mem[sh'.data], e.res)
  {
    RunInv(run, labels, zero, i);
    RunInv(run, labels, zero, i + 1);
    RunExtends(run, labels, zero, i, i + 1);
    var sh, sh' := run[i].sh, run[i + 1].sh;
    assert labels[i].Move? by {
      var l := labels[i];
      assert run[i + 1] == Do(run[i], l, zero);
    }
    OneEffect(run[i], labels[i].t, zero);
    assert sh.mem[sh.pubs[|sh.log|]] == sh.states[|sh.log|] && sh'.mem[sh'.pubs[|sh'.log|]] == sh'.states[|sh'.log|];
    assert sh'.states[|sh.log|] == sh.states[|sh.log|];
    var e := sh'.log[|sh.log|];
    MeansExact(e.op, sh.mem[sh.data], sh'.mem[sh'.data], e.res);
  }

  /** A step is at most one effect, and the pointer changes only with one. */
  lemma OneEffect<T>(s: State<T>, t: nat, zero: T)
    requires Inv(s) && Can(s, Move(t))
    ensures var sh' := Do(s, Move(t), zero).sh;
            |sh'.log| <= |s.sh.log| + 1 && (sh'.data != s.sh.data ==> |sh'.log| == |s.sh.log| + 1)
  {
  }

  /** The contents at every point are the mutators applied one after the other in the order
      they took the lock, and each of them returned what that order makes of it. */
  lemma Sequential<T(!new)>(run: seq<State<T>>, labels: seq<Label<T>>, zero: T, i: nat)
    requires IsRun(run, labels, zero) && i < |run|
    ensures var sh := run[i].sh;
            && |sh.states| == |sh.log| + 1 && LockOrder(sh) && sh.states[0] == run[0].sh.states[0]
            && (forall k {:trigger sh.log[k]} :: 0 <= k < |sh.log| ==>
                  Means(sh.log[k].op, sh.states[k], sh.states[k + 1], sh.log[k].res))
            && sh.data < |sh.mem| && sh.mem[sh.data] == sh.states[|sh.log|]
  {
    RunInv(run, labels, zero, i);
    RunInv(run, labels, zero, 0);
    RunExtends(run, labels, zero, 0, i);
    var sh := run[i].sh;
    assert sh.mem[sh.pubs[|sh.log|]] == sh.states[|sh.log|];
    assert sh.states[0] == run[0].sh.states[0];
    forall k {:trigger sh.log[k]} | 0 <= k < |sh.log|
      ensures Means(sh.log[k].op, sh.states[k], sh.states[k + 1], sh.log[k].res)
    {
      MeansExact(sh.log[k].op, sh.states[k], sh.states[k + 1], sh.log[k].res);
    }
  }

  /** At most one thread is between Lock and Unlock. */
  lemma MutualExclusion<T(!new)>(run: seq<State<T>>, labels: seq<Label<T>>, zero: T, i: nat, t: nat, u: nat)
    requires IsRun(run, labels, zero) && i < |run| && t < |run[i].threads| && u < |run[i].threads|
    requires InSection(run[i].threads[t].pc) && InSection(run[i].threads[u].pc)
    ensures t == u
  {
    RunInv(run, labels, zero, i);
  }

  /** Whenever a call is unfinished, some thread can take a step: only Lock waits, and the
      thread that holds the mutex never does. */
  lemma NeverStuck<T(!new)>(run: seq<State<T>>, labels: seq<Label<T>>, zero: T, i: nat, t: nat) returns (u: nat)
    requires IsRun(run, labels, zero) && i < |run| && t < |run[i].threads| && !run[i].threads[t].pc.Idle?
    ensures Can(run[i], Move(u))
  {
    RunInv(run, labels, zero, i);
    var s := run[i];
    u := if s.threads[t].pc.Start? && s.sh.mutex.By? then s.sh.mutex.holder else t;
    assert ThreadOk(s.sh, u, s.threads[u]);
    var th := s.threads[u];
    assert s.sh.pubs[|s.sh.log|] < |s.sh.mem|;
    if th.pc.Scan? && th.pc.task.Read? {
      assert s.sh.pubs[th.at] < |s.sh.mem|;
    }
  }

  // ---------- Calls and their intervals ----------

  /** Thread t's call began at step b, after `began` mutators. */
  ghost predicate BegunAt<T>(run: seq<State<T>>, labels: seq<Label<T>>, b: nat, t: nat, task: Task<T>, began: nat) {
    b < |labels| && b < |run| && labels[b] == Begin(t, task) && began == |run[b].sh.log|
  }

  /** Call number c returned at step e, after `ended` mutators. */
  ghost predicate EndedAt<T>(run: seq<State<T>>, labels: seq<Label<T>>, e: nat, c: nat, t: nat, ended: nat) {
    && e < |labels| && e + 1 < |run| && labels[e] == Move(t) && ended == |run[e].sh.log|
    && |run[e].calls| == c && |run[e + 1].calls| == c + 1
  }

  lemma {:induction false} Begun<T(!new)>(run: seq<State<T>>, labels: seq<Label<T>>, zero: T, i: nat, t: nat)
    returns (b: nat)
    requires IsRun(run, labels, zero) && i < |run| && t < |run[i].threads| && !run[i].threads[t].pc.Idle?
    ensures b < i && BegunAt(run, labels, b, t, run[i].threads[t].task, run[i].threads[t].began)
  {
    var l := labels[i - 1];
    assert run[i] == Do(run[i - 1], l, zero);
    if l.Begin? && l.t == t {
      b := i - 1;
    } else {
      b := Begun(run, labels, zero, i - 1, t);
    }
  }

  /** The answer of a call is the one its operation gives on the state it is about. */
  ghost predicate AnswerMeans<T>(sh: Shared<T>, c: Call<T>) {
    && c.began <= c.at <= c.ended <= |sh.log| < |sh.states|
    && match c.task
       case Read(answer) => c.res == answer(sh.states[c.at])
       case Mutate(op) =>
         if Skips(op) then Means(op, sh.states[c.at], sh.states[c.at], c.res)
         else c.at < c.ended && sh.log[c.at] == Entry(c.tid, op, c.res) &&
              Means(op, sh.states[c.at], sh.states[c.at + 1], c.res)
  }

  lemma CallMeans<T>(sh: Shared<T>, c: Call<T>)
    requires Composed(sh.log, sh.states) && CallOk(sh, c)
    ensures AnswerMeans(sh, c)
  {
    if c.task.Mutate? {
      var op := c.task.op;
      if Skips(op) {
        MeansExact(op, sh.states[c.at], sh.states[c.at], c.res);
      } else {
        assert sh.log[c.at] == Entry(c.tid, op, c.res);
        MeansExact(op, sh.states[c.at], sh.states[c.at + 1], c.res);
      }
    }
  }

  /** Every returned call is about one state, reached inside the call's own interval, and its
      result is right for that state. */
  lemma {:induction false} CallInterval<T(!new)>(run: seq<State<T>>, labels: seq<Label<T>>, zero: T, i: nat, c: nat)
    returns (b: nat, e: nat)
    requires IsRun(run, labels, zero) && i < |run| && c < |run[i].calls|
    ensures var k := run[i].calls[c];
            && b < e < i && BegunAt(run, labels, b, k.tid, k.task, k.began) &&
               EndedAt(run, labels, e, c, k.tid, k.ended)
            && AnswerMeans(run[i].sh, k)
  {
    RunInv(run, labels, zero, i);
    assert CallOk(run[i].sh, run[i].calls[c]);
    CallMeans(run[i].sh, run[i].calls[c]);
    var l := labels[i - 1];
    assert run[i] == Do(run[i - 1], l, zero);
    if c < |run[i - 1].calls| {
      b, e := CallInterval(run, labels, zero, i - 1, c);
    } else {
      b := Begun(run, labels, zero, i - 1, l.t);
      e := i - 1;
    }
  }

  /** How many mutators had taken effect by the end of the call's own effect. */
  function Effect<T>(c: Call<T>): nat {
    if c.task.Mutate? && !Skips(c.task.op) then c.at + 1 else c.at
  }

  /** A call that returned before another began is about no later a state, and the other one
      sees its effect. */
  lemma RealTime<T(!new)>(run: seq<State<T>>, labels: seq<Label<T>>, zero: T, i: nat, c: nat, d: nat, e: nat, b: nat)
    requires IsRun(run, labels, zero) && i < |run| && c < |run[i].calls| && d < |run[i].calls| && e < b
    requires var k, m := run[i].calls[c], run[i].calls[d];
             EndedAt(run, labels, e, c, k.tid, k.ended) && BegunAt(run, labels, b, m.tid, m.task, m.began)
    ensures Effect(run[i].calls[c]) <= run[i].calls[d].at
  {
    RunInv(run, labels, zero, i);
    RunExtends(run, labels, zero, e, b);
    assert CallOk(run[i].sh, run[i].calls[c]) && CallOk(run[i].sh, run[i].calls[d]);
  }
}
