/**
 The copy-on-write list of cowlist.go as a step machine: any number of threads, one step for
 every lock, load, read of a slot, write of a slot, store and unlock. Everything under
 "bookkeeping" is read by no step.
 */
module CowListMachine {
  import opened CowOperations

  /** A call: a mutator, or a reader, which is any function of the slots of a snapshot. */
  datatype Task<!T> = Mutate(op: Op<T>) | Read(answer: seq<T> -> Result<T>)

  datatype PC<!T> =
    | Idle
    | Start(task: Task<T>)                                 // at mu.Lock, or at data.Load for a reader
    | Locked(op: Op<T>)                                    // holding mu, nothing loaded yet
    | Scan(task: Task<T>, snap: nat, seen: seq<T>)         // reading the slots of the snapshot
    | Fill(op: Op<T>, seen: seq<T>, made: nat, j: nat)     // writing the slots of a new slice
    | Unlock(res: Result<T>)                               // at mu.Unlock
    | Done(res: Result<T>)

  datatype Mutex = Free | By(holder: nat)

  /** A mutator that has taken effect, and the thread that ran it. */
  datatype Entry<!T> = Entry(tid: nat, op: Op<T>, res: Result<T>)

  /** What the threads share. */
  datatype Shared<!T> = Shared(
    mem: seq<seq<T>>,            // every slice made so far, an address being an index
    data: nat,                   // the address in the atomic pointer
    mutex: Mutex,
    // Bookkeeping: mutators in the order they took the lock, and in the order they took effect;
    // the contents before the first and after each of them, and the address of each.
    locks: seq<(nat, Op<T>)>,
    log: seq<Entry<T>>,
    states: seq<seq<T>>,
    pubs: seq<nat>)

  /** A thread; task, began and at describe its current call: how many mutators had taken effect
      when it began, and how many before the state it is about. */
  datatype Thread<!T> = Thread(pc: PC<T>, task: Task<T>, began: nat, at: nat)

  datatype Call<!T> = Call(tid: nat, task: Task<T>, began: nat, at: nat, ended: nat, res: Result<T>)

  datatype State<!T> = State(sh: Shared<T>, threads: seq<Thread<T>>, calls: seq<Call<T>>)

  datatype Label<!T> = Begin(t: nat, task: Task<T>) | Move(t: nat)

  // ---------- Steps ----------

  /** A slice of the given length, its slots not written yet. */
  ghost function Made<T>(n: int, zero: T): (s: seq<T>)
    ensures |s| == if n < 0 then 0 else n
  {
    if n <= 0 then [] else Made(n - 1, zero) + [zero]
  }

  ghost function MakeSlice<T>(sh: Shared<T>, op: Op<T>, seen: seq<T>, zero: T): (Shared<T>, PC<T>) {
    (sh.(mem := sh.mem + [Made(NewLen(op, seen), zero)]), Fill(op, seen, |sh.mem|, 0))
  }

  /** Bookkeeping for a mutator that has just taken effect. */
  ghost function Logged<T>(sh: Shared<T>, t: nat, op: Op<T>, res: Result<T>): Shared<T>
    requires sh.data < |sh.mem|
  {
    sh.(log := sh.log + [Entry(t, op, res)], states := sh.states + [sh.mem[sh.data]], pubs := sh.pubs + [sh.data])
  }

  /** Whether thread t is not waiting for the mutex, and the memory it needs is there. */
  ghost predicate Enabled<T>(sh: Shared<T>, pc: PC<T>) {
    match pc
    case Start(Mutate(op)) => Skips(op) || sh.mutex.Free?
    case Scan(task, snap, seen) => snap < |sh.mem| && sh.data < |sh.mem|
    case Fill(op, seen, made, j) =>
      made < |sh.mem| && Refusal(op, seen).None? &&
        |sh.mem[made]| <= (if NewLen(op, seen) < 0 then 0 else NewLen(op, seen))
    case _ => true
  }

  /** A step of thread t: what is shared afterwards, and the next program point. */
  ghost function Turn<T>(sh: Shared<T>, t: nat, pc: PC<T>, zero: T): (Shared<T>, PC<T>)
    requires Enabled(sh, pc)
  {
    match pc
    case Idle => (sh, pc)
    case Start(Read(_)) => (sh, Scan(pc.task, sh.data, []))
    case Start(Mutate(op)) =>
      if Skips(op) then (sh, Done(SkipReply(op)))
      else (sh.(mutex := By(t), locks := sh.locks + [(t, op)]), Locked(op))
    case Locked(op) =>
      if Blind(op) then MakeSlice(sh, op, [], zero) else (sh, Scan(Mutate(op), sh.data, []))
    case Scan(task, snap, seen) =>
      if |seen| < |sh.mem[snap]| then (sh, Scan(task, snap, seen + [sh.mem[snap][|seen|]]))
      else
        (match task
         case Read(answer) => (sh, Done(answer(seen)))
         case Mutate(op) =>
           (match Refusal(op, seen)
            case Some(res) => (Logged(sh, t, op, res), Unlock(res))
            case None => MakeSlice(sh, op, seen, zero)))
    case Fill(op, seen, made, j) =>
      if j < |sh.mem[made]| then
        (sh.(mem := sh.mem[made := sh.mem[made][j := Slot(op, seen, j)]]), Fill(op, seen, made, j + 1))
      else (Logged(sh.(data := made), t, op, Reply(op, seen)), Unlock(Reply(op, seen)))
    case Unlock(res) => (sh.(mutex := Free), Done(res))
    case Done(_) => (sh, Idle)
  }

  /** The call is about the current state from the step that loads it for a reader, and for a
      mutator until it takes effect. */
  ghost function NextAt<T>(sh: Shared<T>, th: Thread<T>): nat {
    if th.pc.Start? || th.pc.Locked? || th.pc.Fill? || (th.pc.Scan? && th.task.Mutate?) then |sh.log| else th.at
  }

  ghost predicate Can<T>(s: State<T>, l: Label<T>) {
    l.t < |s.threads| &&
    match l
    case Begin(t, _) => s.threads[t].pc.Idle?
    case Move(t) => !s.threads[t].pc.Idle? && Enabled(s.sh, s.threads[t].pc)
  }

  ghost function Do<T>(s: State<T>, l: Label<T>, zero: T): State<T>
    requires Can(s, l)
  {
    match l
    case Begin(t, task) => s.(threads := s.threads[t := Thread(Start(task), task, |s.sh.log|, |s.sh.log|)])
    case Move(t) =>
      var th := s.threads[t];
      var (sh, pc) := Turn(s.sh, t, th.pc, zero);
      State(sh, s.threads[t := Thread(pc, th.task, th.began, NextAt(s.sh, th))],
            if th.pc.Done? then s.calls + [Call(t, th.task, th.began, th.at, |s.sh.log|, th.pc.res)] else s.calls)
  }

  ghost predicate Init<T>(s: State<T>) {
    && |s.sh.states| == 1 && s.sh.pubs == [s.sh.data] && s.sh.log == [] && s.sh.locks == [] && s.sh.mutex.Free?
    && s.sh.data < |s.sh.mem| && s.sh.mem[s.sh.data] == s.sh.states[0] && s.calls == []
    && forall t :: 0 <= t < |s.threads| ==> s.threads[t].pc.Idle? && s.threads[t].began == 0
  }

  /** A run: the states in order, each reached from the one before by the step of the label. */
  ghost predicate IsRun<T(!new)>(run: seq<State<T>>, labels: seq<Label<T>>, zero: T) {
    && |run| == |labels| + 1 && Init(run[0])
    && forall i {:trigger labels[i]} :: 0 <= i < |labels| ==>
       Can(run[i], labels[i]) && run[i + 1] == Do(run[i], labels[i], zero)
  }
}
