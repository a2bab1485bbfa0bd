/**
 Any number of threads working on any number of concurrentTreeSets (concurrent_treeset.go) as
 a step machine. Every operation is a series of sections, each under the mutex of one set:
 taking the mutex, the work under it, and letting go are separate steps.
 */
module TreeSetMachine {
  import opened Common

  // ---------- sync.RWMutex ----------

  /** A read-write mutex with writer preference. A writer first announces itself, which keeps
      new readers out, and enters once the readers that are in have left. */
  datatype RW = RW(readers: multiset<nat>, writer: Option<nat>, entered: bool)

  const FREE := RW(multiset{}, None, false)

  /** RLock waits while a writer is in or announced; so does another writer's Lock. */
  predicate CanRLock(m: RW) { m.writer.None? }
  predicate CanAnnounce(m: RW) { m.writer.None? }
  predicate CanEnter(m: RW) { m.readers == multiset{} }

  function RLock(m: RW, t: nat): RW { m.(readers := m.readers + multiset{t}) }
  function RUnlock(m: RW, t: nat): RW { m.(readers := m.readers - multiset{t}) }
  function Announce(m: RW, t: nat): RW { m.(writer := Some(t)) }
  function Enter(m: RW): RW { m.(entered := true) }
  function Unlock(m: RW): RW { m.(writer := None, entered := false) }

  // ---------- Operations ----------

  /** An operation on the set with index c and, if it has an argument set, the one with index o. */
  datatype Op<!T> =
    | Add(c: nat, x: T)
    | Remove(c: nat, x: T)
    | Contains(c: nat, x: T)
    | Size(c: nat)
    | Filter(c: nat, pred: T -> bool)
    | RemoveFunc(c: nat, pred: T -> bool)
    | Union(c: nat, o: nat)
    | Intersection(c: nat, o: nat)
    | Difference(c: nat, o: nat)
    | SymmetricDifference(c: nat, o: nat)
    | IsSubsetOf(c: nat, o: nat)
    | IsSupersetOf(c: nat, o: nat)
    | IsProperSubsetOf(c: nat, o: nat)
    | IsProperSupersetOf(c: nat, o: nat)
    | IsDisjoint(c: nat, o: nat)
    | Equals(c: nat, o: nat)

  datatype Result<T> = Flag(b: bool) | Count(n: nat) | Elems(s: set<T>)

  predicate Relates<T>(op: Op<T>) {
    !(op.Add? || op.Remove? || op.Contains? || op.Size? || op.Filter? || op.RemoveFunc?)
  }

  /** The set whose snapshot an operation walks over; IsSupersetOf asks the other set. */
  function Walked<T>(op: Op<T>): nat {
    if op.IsSupersetOf? || op.IsProperSupersetOf? then op.o else op.c
  }

  /** The set it consults after that. */
  function Consulted<T>(op: Op<T>): nat {
    if !Relates(op) || op.IsSupersetOf? || op.IsProperSupersetOf? then op.c else op.o
  }

  /** What is left to do, by the section that comes next. */
  datatype Plan<T> =
    | WriteOne                                               // the tree operation of Add or Remove
    | AskOne                                                 // Contains
    | OwnSize                                                // c.Size()
    | OtherSize(n: nat, snap: set<T>)                        // other.Size()
    | Snapshot                                               // snapshot() or ToSlice()
    | Sift(snap: set<T>, todo: seq<T>, out: set<T>)          // other.Contains(todo[0])
    | Slice(snap: set<T>, out: set<T>)                       // other.Seq()
    | Delete(dels: set<T>)                                   // the second half of RemoveFunc

  datatype Next<T> = More(plan: Plan<T>) | Finish(res: Result<T>)

  function First<T>(op: Op<T>): Plan<T> {
    match op
    case Add(_, _) => WriteOne
    case Remove(_, _) => WriteOne
    case Contains(_, _) => AskOne
    case Size(_) => OwnSize
    case IsProperSubsetOf(_, _) => OwnSize
    case IsProperSupersetOf(_, _) => OwnSize
    case _ => Snapshot
  }

  /** The set whose mutex the section takes, and whether it takes it for writing. */
  function Target<T>(op: Op<T>, plan: Plan<T>): nat {
    match plan
    case Snapshot => Walked(op)
    case OtherSize(_, _) => if Relates(op) then op.o else op.c
    case Sift(_, _, _) => Consulted(op)
    case Slice(_, _) => Consulted(op)
    case _ => op.c
  }

  predicate Writes<T>(plan: Plan<T>) { plan.WriteOne? || plan.Delete? }

  // ---------- The work of a section ----------

  /** The elements of a set in some order. */
  ghost function Order<T>(s: set<T>): (r: seq<T>)
    ensures |r| == |s| && (set x | x in r) == s
  {
    if s == {} then []
    else
      var x :| x in s;
      [x] + Order(s - {x})
  }

  /** Which answer of other.Contains makes a walk pick the element. */
  predicate Picks<T>(op: Op<T>, contained: bool) {
    contained == (op.Intersection? || op.IsDisjoint?)
  }

  /** Relations stop at the first element picked. */
  predicate Stops<T>(op: Op<T>) {
    op.IsSubsetOf? || op.IsSupersetOf? || op.IsProperSubsetOf? || op.IsProperSupersetOf? || op.IsDisjoint? || op.Equals?
  }

  ghost function Walk<T>(op: Op<T>, snap: set<T>, todo: seq<T>, out: set<T>): Next<T> {
    if todo != [] then More(Sift(snap, todo, out))
    else if Stops(op) then Finish(Flag(true))
    else if op.SymmetricDifference? then More(Slice(snap, out))
    else Finish(Elems(out))
  }

  function Satisfying<T>(s: set<T>, p: T -> bool): set<T> {
    set x | x in s && p(x)
  }

  /** The work under the mutex on a set that holds s: what it holds then, and what comes next. */
  ghost function Work<T>(op: Op<T>, plan: Plan<T>, s: set<T>): (set<T>, Next<T>) {
    match plan
    case WriteOne =>
      if op.Add? then (s + {op.x}, Finish(Flag(op.x !in s)))
      else if op.Remove? then (s - {op.x}, Finish(Flag(op.x in s)))
      else (s, Finish(Flag(false)))
    case AskOne => (s, Finish(Flag(op.Contains? && op.x in s)))
    case OwnSize => (s, if op.Size? then Finish(Count(|s|)) else More(OtherSize(|s|, {})))
    case OtherSize(n, snap) =>
      (s,
       if op.Equals? then (if n != |s| then Finish(Flag(false)) else Walk(op, snap, Order(snap), {}))
       else if (if op.IsProperSubsetOf? then n < |s| else n > |s|) then More(Snapshot)
       else Finish(Flag(false)))
    case Snapshot =>
      (s,
       match op
       case Filter(_, pred) => Finish(Elems(Satisfying(s, pred)))
       case RemoveFunc(_, pred) => if s == {} then Finish(Count(0)) else More(Delete(Satisfying(s, pred)))
       case Union(_, _) => More(Slice(s, {}))
       case Equals(_, _) => More(OtherSize(|s|, s))
       case _ => Walk(op, s, Order(s), {}))
    case Sift(snap, todo, out) =>
      (s,
       if todo == [] then Walk(op, snap, [], out)
       else if !Picks(op, todo[0] in s) then Walk(op, snap, todo[1..], out)
       else if Stops(op) then Finish(Flag(false))
       else Walk(op, snap, todo[1..], out + {todo[0]}))
    case Slice(snap, out) => (s, Finish(Elems(if op.Union? then snap + s else out + (s - snap))))
    case Delete(dels) => (s - dels, Finish(Count(|s * dels|)))
  }

  // ---------- Threads ----------

  datatype PC<T> =
    | Idle
    | Want(plan: Plan<T>)                     // at RLock or Lock
    | Announced(plan: Plan<T>)                // in Lock, waiting for the readers to leave
    | Inside(plan: Plan<T>)                   // holding the mutex
    | Leaving(plan: Plan<T>, next: Next<T>)   // the work is done, the mutex still held
    | Done(res: Result<T>)

  /** Bookkeeping, read by no step: what the walked and the consulted set have held always, and
      ever, since the current call began. */
  datatype Seen<T> = Seen(walkedAlways: set<T>, walkedEver: set<T>, askedAlways: set<T>, askedEver: set<T>)

  datatype Thread<!T> = Thread(pc: PC<T>, op: Op<T>, seen: Seen<T>)

  datatype State<!T> = State(locks: seq<RW>, sets: seq<set<T>>, threads: seq<Thread<T>>)

  datatype Label<!T> = Begin(t: nat, op: Op<T>) | Move(t: nat)

  predicate InRange<T>(op: Op<T>, n: nat) {
    op.c < n && (Relates(op) ==> op.o < n)
  }

  /** Only taking a mutex can wait. */
  predicate CanMove<T>(locks: seq<RW>, th: Thread<T>)
    requires InRange(th.op, |locks|)
  {
    match th.pc
    case Want(plan) =>
      var m := locks[Target(th.op, plan)]; if Writes(plan) then CanAnnounce(m) else CanRLock(m)
    case Announced(plan) => CanEnter(locks[Target(th.op, plan)])
    case _ => true
  }

  ghost predicate Can<T>(s: State<T>, l: Label<T>) {
    l.t < |s.threads| && |s.locks| == |s.sets| &&
    match l
    case Begin(t, op) => s.threads[t].pc.Idle? && InRange(op, |s.sets|)
    case Move(t) => !s.threads[t].pc.Idle? && InRange(s.threads[t].op, |s.sets|) && CanMove(s.locks, s.threads[t])
  }

  /** The mutex a step at pc works on, afterwards. */
  function Locking<T>(m: RW, t: nat, pc: PC<T>): RW {
    match pc
    case Want(plan) => if Writes(plan) then Announce(m, t) else RLock(m, t)
    case Announced(_) => Enter(m)
    case Leaving(plan, _) => if Writes(plan) then Unlock(m) else RUnlock(m, t)
    case _ => m
  }

  ghost function NextPC<T>(op: Op<T>, pc: PC<T>, s: set<T>): PC<T> {
    match pc
    case Idle => Idle
    case Want(plan) => if Writes(plan) then Announced(plan) else Inside(plan)
    case Announced(plan) => Inside(plan)
    case Inside(plan) => Leaving(plan, Work(op, plan, s).1)
    case Leaving(_, More(plan)) => Want(plan)
    case Leaving(_, Finish(res)) => Done(res)
    case Done(_) => Idle
  }

  /** The set a step at pc is about. */
  function At<T>(op: Op<T>, pc: PC<T>): nat {
    match pc
    case Idle => op.c
    case Done(_) => op.c
    case Want(plan) => Target(op, plan)
    case Announced(plan) => Target(op, plan)
    case Inside(plan) => Target(op, plan)
    case Leaving(plan, _) => Target(op, plan)
  }

  ghost function Watch<T>(sets: seq<set<T>>, th: Thread<T>): Thread<T> {
    if th.pc.Idle? || !InRange(th.op, |sets|) then th
    else
      var w, a := sets[Walked(th.op)], sets[Consulted(th.op)];
      var v := th.seen;
      th.(seen := Seen(v.walkedAlways * w, v.walkedEver + w, v.askedAlways * a, v.askedEver + a))
  }

  ghost function Do<T>(s: State<T>, l: Label<T>): State<T>
    requires Can(s, l)
  {
    match l
    case Begin(t, op) =>
      var w, a := s.sets[Walked(op)], s.sets[Consulted(op)];
      s.(threads := s.threads[t := Thread(Want(First(op)), op, Seen(w, w, a, a))])
    case Move(t) =>
      var th := s.threads[t];
      var k := At(th.op, th.pc);
      var sets := if th.pc.Inside? then s.sets[k := Work(th.op, th.pc.plan, s.sets[k]).0] else s.sets;
      var threads := s.threads[t := th.(pc := NextPC(th.op, th.pc, s.sets[k]))];
      State(s.locks[k := Locking(s.locks[k], t, th.pc)], sets,
            seq(|threads|, u requires 0 <= u < |threads| => Watch(sets, threads[u])))
  }

  /** A run: the states in order, each reached from the one before by the step of the label. */
  ghost predicate IsRun<T(!new)>(run: seq<State<T>>, labels: seq<Label<T>>) {
    && |run| == |labels| + 1 && Init(run[0])
    && forall i {:trigger labels[i]} :: 0 <= i < |labels| ==>
       Can(run[i], labels[i]) && run[i + 1] == Do(run[i], labels[i])
  }

  ghost predicate Init<T>(s: State<T>) {
    && |s.locks| == |s.sets|
    && (forall k :: 0 <= k < |s.locks| ==> s.locks[k] == FREE)
    && forall t :: 0 <= t < |s.threads| ==> s.threads[t].pc.Idle?
  }
}
