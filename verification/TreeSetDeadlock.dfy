/**
 No deadlock among concurrentTreeSets: a thread never waits for a mutex while it holds one,
 so whenever a call is unfinished some thread can take a step. And why it matters: with nested
 sections the same operations can get stuck on one set.
 */
module TreeSetDeadlock {
  import opened Common
  import opened TreeSetMachine

  /** Holding a mutex as a reader; occupying one as a writer, announced or in. */
  predicate Reading<T>(pc: PC<T>) {
    (pc.Inside? || pc.Leaving?) && !Writes(pc.plan)
  }

  predicate Writing<T>(pc: PC<T>) {
    (pc.Announced? || pc.Inside? || pc.Leaving?) && Writes(pc.plan)
  }

  /** Mutex k has thread t down as a reader or as its writer exactly when it is one. */
  ghost predicate Recorded<T>(m: RW, t: nat, th: Thread<T>, k: nat) {
    && m.readers[t] == (if Reading(th.pc) && At(th.op, th.pc) == k then 1 else 0)
    && (m.writer == Some(t) <==> Writing(th.pc) && At(th.op, th.pc) == k)
    && (m.writer == Some(t) ==> m.entered == !th.pc.Announced?)
  }

  /** A writer that is in is alone. */
  ghost predicate RWOk(m: RW, n: nat) {
    && (m.writer.Some? ==> m.writer.value < n)
    && (forall r :: r in m.readers ==> r < n)
    && (m.entered ==> m.writer.Some? && m.readers == multiset{})
  }

  ghost predicate AllRecorded<T>(locks: seq<RW>, t: nat, th: Thread<T>) {
    forall k {:trigger locks[k]} :: 0 <= k < |locks| ==> Recorded(locks[k], t, th, k)
  }

  ghost predicate Inv<T>(s: State<T>) {
    && |s.locks| == |s.sets|
    && (forall k {:trigger s.locks[k]} :: 0 <= k < |s.locks| ==> RWOk(s.locks[k], |s.threads|))
    && (forall t {:trigger s.threads[t]} :: 0 <= t < |s.threads| ==> AllRecorded(s.locks, t, s.threads[t]))
    && forall t {:trigger s.threads[t]} :: 0 <= t < |s.threads| ==>
       s.threads[t].pc.Idle? || InRange(s.threads[t].op, |s.sets|)
  }

  /** The step's own thread and mutex. */
  lemma OwnStep<T>(m: RW, n: nat, t: nat, th: Thread<T>, k: nat, s: set<T>)
    requires RWOk(m, n) && t < n && Recorded(m, t, th, k) && k == At(th.op, th.pc)
    requires match th.pc
             case Want(plan) => if Writes(plan) then CanAnnounce(m) else CanRLock(m)
             case Announced(_) => CanEnter(m) && Writes(th.pc.plan)
             case _ => true
    ensures var m' := Locking(m, t, th.pc); var pc := NextPC(th.op, th.pc, s);
            && RWOk(m', n)
            && m'.readers[t] == (if Reading(pc) then 1 else 0)
            && (m'.writer == Some(t) <==> Writing(pc))
            && (m'.writer == Some(t) ==> m'.entered == !pc.Announced?)
            && (Reading(pc) || Writing(pc) ==> At(th.op, pc) == k)
  {
  }

  /** What the step does to its mutex does not concern any other thread. */
  lemma OtherStep<T>(m: RW, t: nat, pc: PC<T>, op: Op<T>, u: nat, th: Thread<T>, k: nat)
    requires u != t && Recorded(m, u, th, k) && Recorded(m, t, Thread(pc, op, th.seen), k) && k == At(op, pc)
    requires match pc
             case Want(plan) => if Writes(plan) then CanAnnounce(m) else CanRLock(m)
             case Announced(plan) => Writes(plan)
             case _ => true
    ensures Recorded(Locking(m, t, pc), u, th, k)
  {
  }

  /** Only writers announce themselves. */
  ghost predicate Announcing<T>(s: State<T>) {
    forall t {:trigger s.threads[t]} :: 0 <= t < |s.threads| && s.threads[t].pc.Announced? ==>
      Writes(s.threads[t].pc.plan)
  }

  lemma MoveInv<T>(s: State<T>, t: nat)
    requires Inv(s) && Announcing(s) && Can(s, Move(t))
    ensures Inv(Do(s, Move(t))) && Announcing(Do(s, Move(t)))
  {
    var s' := Do(s, Move(t));
    var th := s.threads[t];
    var k := At(th.op, th.pc);
    OwnStep(s.locks[k], |s.threads|, t, th, k, s.sets[k]);
    forall u {:trigger s'.threads[u]} | 0 <= u < |s'.threads|
      ensures AllRecorded(s'.locks, u, s'.threads[u])
    {
      forall j {:trigger s'.locks[j]} | 0 <= j < |s'.locks|
        ensures Recorded(s'.locks[j], u, s'.threads[u], j)
      {
        assert Recorded(s.locks[j], u, s.threads[u], j) && Recorded(s.locks[j], t, th, j);
        if u != t && j == k {
          OtherStep(s.locks[k], t, th.pc, th.op, u, s.threads[u], k);
        }
      }
    }
  }

  lemma DoInv<T>(s: State<T>, l: Label<T>)
    requires Inv(s) && Announcing(s) && Can(s, l)
    ensures Inv(Do(s, l)) && Announcing(Do(s, l))
  {
    if l.Move? {
      MoveInv(s, l.t);
    } else {
      var s' := Do(s, l);
      forall u {:trigger s'.threads[u]} | 0 <= u < |s'.threads|
        ensures AllRecorded(s'.locks, u, s'.threads[u])
      {
        assert AllRecorded(s.locks, u, s.threads[u]);
      }
    }
  }

  lemma {:induction false} RunInv<T(!new)>(run: seq<State<T>>, labels: seq<Label<T>>, i: nat)
    requires IsRun(run, labels) && i < |run|
    ensures Inv(run[i]) && Announcing(run[i])
  {
    if i > 0 {
      RunInv(run, labels, i - 1);
      var l := labels[i - 1];
      DoInv(run[i - 1], l);
    }
  }

  /** Thread t is at a point where it can be made to wait. */
  predicate Waits<T>(pc: PC<T>) {
    pc.Want? || pc.Announced?
  }

  /** Thread t is in a set's section: a reader of it, or the writer that has entered. */
  predicate Holds(m: RW, t: nat) {
    m.readers[t] > 0 || (m.writer == Some(t) && m.entered)
  }

  /** No thread waits for a mutex while it holds one. */
  lemma NoHoldAndWait<T(!new)>(run: seq<State<T>>, labels: seq<Label<T>>, i: nat, t: nat, k: nat)
    requires IsRun(run, labels) && i < |run| && t < |run[i].threads| && k < |run[i].locks|
    requires Waits(run[i].threads[t].pc)
    ensures !Holds(run[i].locks[k], t)
  {
    RunInv(run, labels, i);
    assert Recorded(run[i].locks[k], t, run[i].threads[t], k);
  }

  /** A thread that holds a mutex can take a step. */
  lemma HolderMoves<T>(s: State<T>, t: nat, k: nat)
    requires Inv(s) && t < |s.threads| && k < |s.locks| && Holds(s.locks[k], t)
    ensures Can(s, Move(t))
  {
    assert Recorded(s.locks[k], t, s.threads[t], k);
  }

  /** Whenever a call is unfinished some thread can take a step. */
  lemma NeverDeadlocked<T(!new)>(run: seq<State<T>>, labels: seq<Label<T>>, i: nat, t: nat) returns (u: nat)
    requires IsRun(run, labels) && i < |run| && t < |run[i].threads| && !run[i].threads[t].pc.Idle?
    ensures Can(run[i], Move(u))
  {
    RunInv(run, labels, i);
    var s := run[i];
    u := t;
    if !CanMove(s.locks, s.threads[t]) {
      var k := At(s.threads[t].op, s.threads[t].pc);
      var m := s.locks[k];
      if s.threads[t].pc.Want? {
        u := m.writer.value;
        assert Recorded(m, u, s.threads[u], k);
      }
      if !CanMove(s.locks, s.threads[u]) {
        u :| u in m.readers;
        HolderMoves(s, u, k);
      }
    }
  }

  /** A writer that has entered excludes every other thread. */
  lemma WriterAlone<T(!new)>(run: seq<State<T>>, labels: seq<Label<T>>, i: nat, t: nat, u: nat, k: nat)
    requires IsRun(run, labels) && i < |run| && t < |run[i].threads| && u < |run[i].threads| && k < |run[i].locks|
    requires run[i].locks[k].writer == Some(t) && Holds(run[i].locks[k], t) && Holds(run[i].locks[k], u)
    ensures t == u
  {
    RunInv(run, labels, i);
    var s := run[i];
    assert Recorded(s.locks[k], t, s.threads[t], k) && Recorded(s.locks[k], u, s.threads[u], k);
    assert s.locks[k].entered;
  }

  /** A thread that is about to work on a set holds its mutex. */
  lemma WorksInside<T(!new)>(run: seq<State<T>>, labels: seq<Label<T>>, i: nat, t: nat)
    requires IsRun(run, labels) && i < |run| && t < |run[i].threads| && run[i].threads[t].pc.Inside?
    ensures var k := At(run[i].threads[t].op, run[i].threads[t].pc);
            k < |run[i].locks| && Holds(run[i].locks[k], t)
  {
    RunInv(run, labels, i);
    var th := run[i].threads[t];
    assert Recorded(run[i].locks[At(th.op, th.pc)], t, th, At(th.op, th.pc));
  }

  /** A set changes only by a step of the writer that has entered its mutex, with no reader in. */
  lemma ChangesGuarded<T(!new)>(run: seq<State<T>>, labels: seq<Label<T>>, i: nat, k: nat)
    requires IsRun(run, labels) && i < |labels| && k < |run[i].sets|
    ensures k < |run[i + 1].sets| && k < |run[i].locks|
    ensures run[i + 1].sets[k] != run[i].sets[k] ==>
              labels[i].Move? && var m := run[i].locks[k];
              m.writer == Some(labels[i].t) && m.entered && m.readers == multiset{}
  {
    RunInv(run, labels, i);
    var s, l := run[i], labels[i];
    assert Can(s, l) && run[i + 1] == Do(s, l);
    if l.Move? {
      var th := s.threads[l.t];
      assert Recorded(s.locks[k], l.t, th, k) && RWOk(s.locks[k], |s.threads|);
    }
  }

  // ---------- The nesting the code avoids ----------

  /** The same machine, except that a thread whose operation has another section to come keeps
      the mutex of the one it leaves. */
  ghost function DoNested<T>(s: State<T>, l: Label<T>): State<T>
    requires Can(s, l)
  {
    var keeps := l.Move? && s.threads[l.t].pc.Leaving? && s.threads[l.t].pc.next.More?;
    if keeps then Do(s, l).(locks := s.locks) else Do(s, l)
  }

  ghost predicate Leads<T>(s: State<T>, l: Label<T>, s': State<T>) {
    Can(s, l) && s' == DoNested(s, l)
  }

  /** A state with one set, which holds x and has the mutex m: the program points and operations
      of the threads. */
  ghost predicate Shows<T>(s: State<T>, m: RW, x: T, at: seq<(PC<T>, Op<T>)>) {
    && s.locks == [m] && s.sets == [{x}] && |s.threads| == |at|
    && forall t :: 0 <= t < |at| ==> s.threads[t].pc == at[t].0 && s.threads[t].op == at[t].1
  }

  lemma NestedBegin<T>(s: State<T>, m: RW, x: T, at: seq<(PC<T>, Op<T>)>, t: nat, op: Op<T>)
    returns (s': State<T>)
    requires Shows(s, m, x, at) && t < |at| && at[t].0.Idle? && InRange(op, 1)
    ensures Leads(s, Begin(t, op), s') && Shows(s', m, x, at[t := (Want(First(op)), op)])
  {
    s' := DoNested(s, Begin(t, op));
  }

  lemma NestedMove<T>(s: State<T>, m: RW, x: T, at: seq<(PC<T>, Op<T>)>, t: nat)
    returns (s': State<T>)
    requires Shows(s, m, x, at) && t < |at|
    requires var (pc, op) := at[t];
             && !pc.Idle? && InRange(op, 1) && CanMove([m], s.threads[t])
             && (pc.Inside? ==> Work(op, pc.plan, {x}).0 == {x})
    ensures var (pc, op) := at[t];
            && Leads(s, Move(t), s')
            && Shows(s', if pc.Leaving? && pc.next.More? then m else Locking(m, t, pc),
                     x, at[t := (NextPC(op, pc, {x}), op)])
  {
    var (pc, op) := at[t];
    assert At(op, pc) == 0;
    s' := DoNested(s, Move(t));
  }

  /** One thread asks whether the set is a subset of itself; the other adds to the set. */
  ghost function NestedStart<T>(x: T): State<T> {
    var idle := Thread(Idle, Size(0), Seen({}, {}, {}, {}));
    State([FREE], [{x}], [idle, idle])
  }

  lemma NestedInit<T>(x: T)
    ensures Init(NestedStart(x)) && Shows(NestedStart(x), FREE, x, [(Idle, Size(0)), (Idle, Size(0))])
  {
  }

  lemma SiftNext<T>(x: T)
    ensures Work(IsSubsetOf(0, 0), Snapshot, {x}) == ({x}, More(Sift({x}, Order({x}), {})))
  {
    assert |Order({x})| == |{x}| == 1;
  }

  /** The walker has taken its snapshot and still holds the mutex. */
  lemma NestedSnapshot<T>(s0: State<T>, x: T) returns (s1: State<T>, s2: State<T>, s3: State<T>, sift: Plan<T>)
    requires Shows(s0, FREE, x, [(Idle, Size(0)), (Idle, Size(0))])
    ensures Leads(s0, Begin(0, IsSubsetOf(0, 0)), s1) && Leads(s1, Move(0), s2) && Leads(s2, Move(0), s3)
    ensures sift.Sift?
    ensures Shows(s3, RLock(FREE, 0), x, [(Leaving(Snapshot, More(sift)), IsSubsetOf(0, 0)), (Idle, Size(0))])
  {
    var ask: Op<T> := IsSubsetOf(0, 0);
    sift := Sift({x}, Order({x}), {});
    SiftNext(x);
    s1 := NestedBegin(s0, FREE, x, [(Idle, Size(0)), (Idle, Size(0))], 0, ask);
    s2 := NestedMove(s1, FREE, x, [(Want(Snapshot), ask), (Idle, Size(0))], 0);
    s3 := NestedMove(s2, RLock(FREE, 0), x, [(Inside(Snapshot), ask), (Idle, Size(0))], 0);
  }

  /** The walker wants the mutex again, and the writer has announced itself. */
  function Stuck<T>(x: T, sift: Plan<T>): seq<(PC<T>, Op<T>)> {
    [(Want(sift), IsSubsetOf(0, 0)), (Announced(WriteOne), Add(0, x))]
  }

  /** The writer announces itself, and the walker wants the mutex again. */
  lemma NestedWait<T>(s3: State<T>, x: T, sift: Plan<T>) returns (s4: State<T>, s5: State<T>, s6: State<T>)
    requires Shows(s3, RLock(FREE, 0), x, [(Leaving(Snapshot, More(sift)), IsSubsetOf(0, 0)), (Idle, Size(0))])
    ensures Leads(s3, Begin(1, Add(0, x)), s4) && Leads(s4, Move(1), s5) && Leads(s5, Move(0), s6)
    ensures Shows(s6, Announce(RLock(FREE, 0), 1), x, Stuck(x, sift))
  {
    var ask, add: Op<T> := IsSubsetOf(0, 0), Add(0, x);
    var read := RLock(FREE, 0);
    s4 := NestedBegin(s3, read, x, [(Leaving(Snapshot, More(sift)), ask), (Idle, Size(0))], 1, add);
    s5 := NestedMove(s4, read, x, [(Leaving(Snapshot, More(sift)), ask), (Want(WriteOne), add)], 1);
    s6 := NestedMove(s5, Announce(read, 1), x, [(Leaving(Snapshot, More(sift)), ask), (Announced(WriteOne), add)], 0);
  }

  /** With nested sections six steps lead to a state in which two calls are unfinished and no
      thread can take a step: the walker waits for the set's mutex behind the writer, and the
      writer for the walker to let go of it. */
  lemma NestingDeadlocks<T(!new)>(x: T)
    returns (s0: State<T>, s1: State<T>, s2: State<T>, s3: State<T>, s4: State<T>, s5: State<T>, s6: State<T>)
    ensures Init(s0) && s0.sets == [{x}]
    ensures Leads(s0, Begin(0, IsSubsetOf(0, 0)), s1) && Leads(s1, Move(0), s2) && Leads(s2, Move(0), s3)
    ensures Leads(s3, Begin(1, Add(0, x)), s4) && Leads(s4, Move(1), s5) && Leads(s5, Move(0), s6)
    ensures |s6.threads| == 2 && !s6.threads[0].pc.Idle? && !s6.threads[1].pc.Idle?
    ensures forall l :: !Can(s6, l)
  {
    s0 := NestedStart(x);
    NestedInit(x);
    var sift;
    s1, s2, s3, sift := NestedSnapshot(s0, x);
    s4, s5, s6 := NestedEnd(s3, x, sift);
  }

  lemma NestedEnd<T(!new)>(s3: State<T>, x: T, sift: Plan<T>) returns (s4: State<T>, s5: State<T>, s6: State<T>)
    requires sift.Sift?
    requires Shows(s3, RLock(FREE, 0), x, [(Leaving(Snapshot, More(sift)), IsSubsetOf(0, 0)), (Idle, Size(0))])
    ensures Leads(s3, Begin(1, Add(0, x)), s4) && Leads(s4, Move(1), s5) && Leads(s5, Move(0), s6)
    ensures |s6.threads| == 2 && !s6.threads[0].pc.Idle? && !s6.threads[1].pc.Idle?
    ensures forall l :: !Can(s6, l)
  {
    s4, s5, s6 := NestedWait(s3, x, sift);
    NestedStuck(s6, Announce(RLock(FREE, 0), 1), x, sift);
  }

  lemma NestedStuck<T(!new)>(s: State<T>, m: RW, x: T, sift: Plan<T>)
    requires sift.Sift? && m.writer.Some? && 0 in m.readers
    requires Shows(s, m, x, Stuck(x, sift))
    ensures |s.threads| == 2 && !s.threads[0].pc.Idle? && !s.threads[1].pc.Idle?
    ensures forall l :: !Can(s, l)
  {
  }
}
