/**
 What the operations on concurrentTreeSets answer while other threads write: always between
 what holds of the elements the sets never lost and of those they ever had during the call.
 When nobody writes to them meanwhile the answer is the mathematical one.
 */
module TreeSetAnswers {
  import opened TreeSetMachine

  lemma {:induction false} Smaller<T>(a: set<T>, b: set<T>)
    requires a <= b
    ensures |a| <= |b| && (|a| == |b| ==> a == b)
  {
    if a != {} {
      var x :| x in a;
      Smaller(a - {x}, b - {x});
    }
  }

  // ---------- Bounds on answers ----------

  ghost predicate Between<T>(lo: set<T>, s: set<T>, hi: set<T>) { lo <= s <= hi }

  ghost predicate ResultOk<T>(op: Op<T>, v: Seen<T>, res: Result<T>) {
    var wA, wE, aA, aE := v.walkedAlways, v.walkedEver, v.askedAlways, v.askedEver;
    match (op, res)
    case (Add(_, x), Flag(b)) => if b then x !in wA else x in wE
    case (Remove(_, x), Flag(b)) => if b then x in wE else x !in wA
    case (Contains(_, x), Flag(b)) => if b then x in wE else x !in wA
    case (Size(_), Count(n)) => |wA| <= n <= |wE|
    case (Filter(_, p), Elems(r)) => Between(Satisfying(wA, p), r, Satisfying(wE, p))
    case (RemoveFunc(_, p), Count(n)) => n <= |Satisfying(wE, p)|
    case (Union(_, _), Elems(r)) => Between(wA + aA, r, wE + aE)
    case (Intersection(_, _), Elems(r)) => Between(wA * aA, r, wE * aE)
    case (Difference(_, _), Elems(r)) => Between(wA - aE, r, wE - aA)
    case (SymmetricDifference(_, _), Elems(r)) => Between((wA - aE) + (aA - wE), r, (wE - aA) + (aE - wA))
    case (IsSubsetOf(_, _), Flag(b)) => if b then wA <= aE else !(wE <= aA)
    case (IsSupersetOf(_, _), Flag(b)) => if b then wA <= aE else !(wE <= aA)
    case (IsProperSubsetOf(_, _), Flag(b)) => if b then wA <= aE && |wA| < |aE| else !(wE <= aA) || |wE| >= |aA|
    case (IsProperSupersetOf(_, _), Flag(b)) => if b then wA <= aE && |wA| < |aE| else !(wE <= aA) || |wE| >= |aA|
    case (IsDisjoint(_, _), Flag(b)) => if b then wA * aA == {} else wE * aE != {}
    case (Equals(_, _), Flag(b)) =>
      if b then wA <= aE && |wA| <= |aE| && |aA| <= |wE| else !(wA == wE && aA == aE && wA == aA)
    case _ => false
  }

  // ---------- Bounds on work in progress ----------

  ghost function Mentioned<T>(todo: seq<T>): set<T> {
    set x | x in todo
  }

  /** What a walk has picked out of the part of snap that is not still to do. */
  ghost predicate Picked<T>(op: Op<T>, snap: set<T>, todo: seq<T>, out: set<T>, v: Seen<T>) {
    if Picks(op, true) then (snap - Mentioned(todo)) * v.askedAlways <= out <= snap * v.askedEver
    else snap - Mentioned(todo) - v.askedEver <= out <= snap - v.askedAlways
  }

  /** What the sizes compared so far say. */
  ghost predicate Sized<T>(op: Op<T>, v: Seen<T>) {
    && (op.IsProperSubsetOf? || op.IsProperSupersetOf? ==> |v.walkedAlways| < |v.askedEver|)
    && (op.Equals? ==> |v.walkedAlways| <= |v.askedEver| && |v.askedAlways| <= |v.walkedEver|)
  }

  ghost predicate Snapped<T>(snap: set<T>, v: Seen<T>) { v.walkedAlways <= snap <= v.walkedEver }

  ghost predicate PlanOk<T>(op: Op<T>, plan: Plan<T>, v: Seen<T>) {
    match plan
    case WriteOne => op.Add? || op.Remove?
    case AskOne => op.Contains?
    case OwnSize => op.Size? || op.IsProperSubsetOf? || op.IsProperSupersetOf?
    case OtherSize(n, snap) =>
      if op.Equals? then n == |snap| && Snapped(snap, v)
      else if op.IsProperSubsetOf? then |v.walkedAlways| <= n <= |v.walkedEver|
      else op.IsProperSupersetOf? && |v.askedAlways| <= n <= |v.askedEver|
    case Snapshot =>
      op.Filter? || op.RemoveFunc? || op.Equals? || (Relates(op) && Sized(op, v))
    case Sift(snap, todo, out) =>
      && Relates(op) && !op.Union? && Sized(op, v) && Snapped(snap, v) && Mentioned(todo) <= snap && todo != []
      && Picked(op, snap, todo, out, v) && (Stops(op) ==> out == {})
    case Slice(snap, out) =>
      Snapped(snap, v) && (op.Union? || (op.SymmetricDifference? && Picked(op, snap, [], out, v)))
    case Delete(dels) =>
      op.RemoveFunc? && Between(Satisfying(v.walkedAlways, op.pred), dels, Satisfying(v.walkedEver, op.pred))
  }

  ghost predicate NextOk<T>(op: Op<T>, next: Next<T>, v: Seen<T>) {
    match next
    case More(plan) => PlanOk(op, plan, v)
    case Finish(res) => ResultOk(op, v, res)
  }

  ghost predicate Proper<T>(op: Op<T>, v: Seen<T>) {
    v.walkedAlways <= v.walkedEver && v.askedAlways <= v.askedEver &&
      (!Relates(op) ==> v.askedAlways == v.walkedAlways && v.askedEver == v.walkedEver)
  }

  /** Longer watching only widens the bounds. */
  ghost predicate Wider<T>(v: Seen<T>, v': Seen<T>) {
    && v'.walkedAlways <= v.walkedAlways && v.walkedEver <= v'.walkedEver
    && v'.askedAlways <= v.askedAlways && v.askedEver <= v'.askedEver
  }

  lemma Counts<T>(v: Seen<T>, v': Seen<T>)
    requires Wider(v, v')
    ensures |v'.walkedAlways| <= |v.walkedAlways| && |v.walkedEver| <= |v'.walkedEver|
    ensures |v'.askedAlways| <= |v.askedAlways| && |v.askedEver| <= |v'.askedEver|
  {
    Smaller(v'.walkedAlways, v.walkedAlways);
    Smaller(v.walkedEver, v'.walkedEver);
    Smaller(v'.askedAlways, v.askedAlways);
    Smaller(v.askedEver, v'.askedEver);
  }

  lemma ResultLater<T>(op: Op<T>, v: Seen<T>, v': Seen<T>, res: Result<T>)
    requires ResultOk(op, v, res) && Proper(op, v) && Wider(v, v')
    ensures ResultOk(op, v', res)
  {
    Counts(v, v');
    if op.RemoveFunc? {
      Smaller(Satisfying(v.walkedEver, op.pred), Satisfying(v'.walkedEver, op.pred));
    }
  }

  lemma PlanLater<T>(op: Op<T>, plan: Plan<T>, v: Seen<T>, v': Seen<T>)
    requires PlanOk(op, plan, v) && Wider(v, v')
    ensures PlanOk(op, plan, v')
  {
    Counts(v, v');
  }

  // ---------- The work ----------

  /** The walk goes on, or ends with an answer that is right. */
  lemma WalkOk<T>(op: Op<T>, snap: set<T>, todo: seq<T>, out: set<T>, v: Seen<T>)
    requires Relates(op) && !op.Union? && Sized(op, v) && Snapped(snap, v) && Mentioned(todo) <= snap && Proper(op, v)
    requires Picked(op, snap, todo, out, v) && (Stops(op) ==> out == {})
    ensures NextOk(op, Walk(op, snap, todo, out), v)
  {
    if todo == [] && Stops(op) {
      assert Mentioned(todo) == {};
      if Picks(op, true) {
        assert snap * v.askedAlways <= {};
      } else {
        forall x | x in snap
          ensures x in v.askedEver
        {
          assert x !in v.askedEver ==> x in snap - Mentioned(todo) - v.askedEver;
        }
      }
    }
  }

  lemma SiftOk<T>(op: Op<T>, plan: Plan<T>, s: set<T>, v: Seen<T>)
    requires plan.Sift? && PlanOk(op, plan, v) && Proper(op, v) && v.askedAlways <= s <= v.askedEver
    ensures NextOk(op, Work(op, plan, s).1, v)
  {
    var snap, todo, out := plan.snap, plan.todo, plan.out;
    var x := todo[0];
    assert x in Mentioned(todo);
    assert Mentioned(todo) == Mentioned(todo[1..]) + {x} by {
      assert todo == [x] + todo[1..];
    }
    if !Picks(op, x in s) {
      WalkOk(op, snap, todo[1..], out, v);
    } else if !Stops(op) {
      WalkOk(op, snap, todo[1..], out + {x}, v);
    }
  }

  lemma StartOk<T>(op: Op<T>, s: set<T>, v: Seen<T>)
    requires Relates(op) && !op.Union? && Sized(op, v) && Snapped(s, v) && Proper(op, v)
    ensures NextOk(op, Walk(op, s, Order(s), {}), v)
  {
    assert Mentioned(Order(s)) == s;
    WalkOk(op, s, Order(s), {}, v);
  }

  lemma SliceOk<T>(op: Op<T>, plan: Plan<T>, s: set<T>, v: Seen<T>)
    requires plan.Slice? && PlanOk(op, plan, v) && Proper(op, v) && v.askedAlways <= s <= v.askedEver
    ensures NextOk(op, Work(op, plan, s).1, v)
  {
    assert Mentioned<T>([]) == {};
  }

  lemma OtherSizeOk<T>(op: Op<T>, plan: Plan<T>, s: set<T>, v: Seen<T>)
    requires plan.OtherSize? && PlanOk(op, plan, v) && Proper(op, v)
    requires if op.IsProperSupersetOf? then v.walkedAlways <= s <= v.walkedEver else v.askedAlways <= s <= v.askedEver
    ensures NextOk(op, Work(op, plan, s).1, v)
  {
    if op.IsProperSupersetOf? {
      Smaller(v.walkedAlways, s);
      Smaller(s, v.walkedEver);
    } else {
      Smaller(v.askedAlways, s);
      Smaller(s, v.askedEver);
    }
    if op.Equals? {
      Smaller(v.walkedAlways, plan.snap);
      Smaller(plan.snap, v.walkedEver);
      if plan.n == |s| {
        StartOk(op, plan.snap, v);
      }
    }
  }

  lemma SnapshotOk<T>(op: Op<T>, s: set<T>, v: Seen<T>)
    requires PlanOk(op, Snapshot, v) && Proper(op, v) && v.walkedAlways <= s <= v.walkedEver
    ensures NextOk(op, Work(op, Snapshot, s).1, v)
  {
    if Relates(op) && !op.Union? && !op.Equals? {
      StartOk(op, s, v);
    }
  }

  lemma WorkOk<T>(op: Op<T>, plan: Plan<T>, s: set<T>, v: Seen<T>)
    requires PlanOk(op, plan, v) && Proper(op, v)
    requires Target(op, plan) == Walked(op) ==> v.walkedAlways <= s <= v.walkedEver
    requires Target(op, plan) == Consulted(op) ==> v.askedAlways <= s <= v.askedEver
    ensures NextOk(op, Work(op, plan, s).1, v)
  {
    match plan
    case WriteOne =>
    case AskOne =>
    case OwnSize =>
      if op.IsProperSupersetOf? {
        Smaller(v.askedAlways, s);
        Smaller(s, v.askedEver);
      } else {
        Smaller(v.walkedAlways, s);
        Smaller(s, v.walkedEver);
      }
    case OtherSize(_, _) => OtherSizeOk(op, plan, s, v);
    case Snapshot => SnapshotOk(op, s, v);
    case Sift(_, _, _) => SiftOk(op, plan, s, v);
    case Slice(_, _) => SliceOk(op, plan, s, v);
    case Delete(dels) =>
      Smaller(s * dels, Satisfying(v.walkedEver, op.pred));
  }

  // ---------- Runs ----------

  ghost predicate Tracked<T>(sets: seq<set<T>>, op: Op<T>, v: Seen<T>)
    requires InRange(op, |sets|)
  {
    && v.walkedAlways <= sets[Walked(op)] <= v.walkedEver
    && v.askedAlways <= sets[Consulted(op)] <= v.askedEver
  }

  ghost predicate PointOk<T>(op: Op<T>, pc: PC<T>, v: Seen<T>) {
    match pc
    case Idle => true
    case Want(plan) => PlanOk(op, plan, v)
    case Announced(plan) => PlanOk(op, plan, v)
    case Inside(plan) => PlanOk(op, plan, v)
    case Leaving(_, next) => NextOk(op, next, v)
    case Done(res) => ResultOk(op, v, res)
  }

  ghost predicate ThreadOk<T>(sets: seq<set<T>>, th: Thread<T>) {
    !th.pc.Idle? ==>
      && InRange(th.op, |sets|) && Tracked(sets, th.op, th.seen) && Proper(th.op, th.seen)
      && PointOk(th.op, th.pc, th.seen)
  }

  ghost predicate Inv<T>(s: State<T>) {
    |s.locks| == |s.sets| && forall t {:trigger s.threads[t]} :: 0 <= t < |s.threads| ==> ThreadOk(s.sets, s.threads[t])
  }

  lemma PointLater<T>(op: Op<T>, pc: PC<T>, v: Seen<T>, v': Seen<T>)
    requires PointOk(op, pc, v) && Proper(op, v) && Wider(v, v')
    ensures PointOk(op, pc, v')
  {
    match pc
    case Idle =>
    case Want(plan) => PlanLater(op, plan, v, v');
    case Announced(plan) => PlanLater(op, plan, v, v');
    case Inside(plan) => PlanLater(op, plan, v, v');
    case Leaving(_, More(plan)) => PlanLater(op, plan, v, v');
    case Leaving(_, Finish(res)) => ResultLater(op, v, v', res);
    case Done(res) => ResultLater(op, v, v', res);
  }

  /** Watching the sets for one more step keeps what a thread knows. */
  lemma WatchOk<T>(sets: seq<set<T>>, sets': seq<set<T>>, th: Thread<T>)
    requires |sets'| == |sets| && ThreadOk(sets, th)
    ensures ThreadOk(sets', Watch(sets', th))
  {
    if !th.pc.Idle? {
      PointLater(th.op, th.pc, th.seen, Watch(sets', th).seen);
    }
  }

  /** The step's own thread, before it watches the outcome. */
  lemma OwnStep<T>(sets: seq<set<T>>, th: Thread<T>)
    requires !th.pc.Idle? && ThreadOk(sets, th)
    ensures ThreadOk(sets, th.(pc := NextPC(th.op, th.pc, sets[At(th.op, th.pc)])))
  {
    if th.pc.Inside? {
      WorkOk(th.op, th.pc.plan, sets[At(th.op, th.pc)], th.seen);
    }
  }

  lemma FirstOk<T>(op: Op<T>, w: set<T>, a: set<T>)
    ensures PlanOk(op, First(op), Seen(w, w, a, a))
  {
  }

  lemma DoInv<T>(s: State<T>, l: Label<T>)
    requires Inv(s) && Can(s, l)
    ensures Inv(Do(s, l))
  {
    match l
    case Begin(t, op) => FirstOk(op, s.sets[Walked(op)], s.sets[Consulted(op)]);
    case Move(t) =>
      var s' := Do(s, l);
      var th := s.threads[t];
      OwnStep(s.sets, th);
      var threads := s.threads[t := th.(pc := NextPC(th.op, th.pc, s.sets[At(th.op, th.pc)]))];
      forall u {:trigger s'.threads[u]} | 0 <= u < |s'.threads|
        ensures ThreadOk(s'.sets, s'.threads[u])
      {
        assert u != t ==> threads[u] == s.threads[u];
        WatchOk(s.sets, s'.sets, threads[u]);
      }
  }

  lemma {:induction false} RunInv<T(!new)>(run: seq<State<T>>, labels: seq<Label<T>>, i: nat)
    requires IsRun(run, labels) && i < |run|
    ensures Inv(run[i])
  {
    if i > 0 {
      RunInv(run, labels, i - 1);
      var l := labels[i - 1];
      DoInv(run[i - 1], l);
    }
  }

  // ---------- Theorems ----------

  /** What set k held at every point, and at some point, from b to i. */
  ghost function Always<T>(run: seq<State<T>>, k: nat, b: nat, i: nat): set<T>
    requires b <= i < |run| && forall j :: b <= j <= i ==> k < |run[j].sets|
  {
    if i == b then run[b].sets[k] else Always(run, k, b, i - 1) * run[i].sets[k]
  }

  ghost function Ever<T>(run: seq<State<T>>, k: nat, b: nat, i: nat): set<T>
    requires b <= i < |run| && forall j :: b <= j <= i ==> k < |run[j].sets|
  {
    if i == b then run[b].sets[k] else Ever(run, k, b, i - 1) + run[i].sets[k]
  }

  lemma {:induction false} Sizes<T(!new)>(run: seq<State<T>>, labels: seq<Label<T>>, i: nat)
    requires IsRun(run, labels) && i < |run|
    ensures forall j :: 0 <= j <= i ==> |run[j].sets| == |run[0].sets|
  {
    if i > 0 {
      Sizes(run, labels, i - 1);
      var l := labels[i - 1];
      assert run[i] == Do(run[i - 1], l);
    }
  }

  ghost predicate Unfinished<T>(run: seq<State<T>>, i: nat, t: nat) {
    && i < |run| && t < |run[i].threads| && !run[i].threads[t].pc.Idle?
    && InRange(run[i].threads[t].op, |run[0].sets|)
  }

  ghost predicate SameSizes<T>(run: seq<State<T>>, i: nat) {
    i < |run| && forall j :: 0 <= j <= i ==> |run[j].sets| == |run[0].sets|
  }

  /** A thread's bookkeeping is what its sets held since the step b at which its call began. */
  ghost predicate SeenSince<T>(run: seq<State<T>>, labels: seq<Label<T>>, b: nat, i: nat, t: nat)
    requires SameSizes(run, i) && Unfinished(run, i, t)
  {
    var th := run[i].threads[t];
    && b < i && b < |labels| && labels[b] == Begin(t, th.op)
    && th.seen == Seen(Always(run, Walked(th.op), b, i), Ever(run, Walked(th.op), b, i),
                       Always(run, Consulted(th.op), b, i), Ever(run, Consulted(th.op), b, i))
  }

  lemma {:induction false} SeenIs<T(!new)>(run: seq<State<T>>, labels: seq<Label<T>>, i: nat, t: nat) returns (b: nat)
    requires IsRun(run, labels) && SameSizes(run, i) && Unfinished(run, i, t)
    ensures SeenSince(run, labels, b, i, t)
  {
    var l := labels[i - 1];
    assert run[i] == Do(run[i - 1], l);
    RunInv(run, labels, i - 1);
    if l.Begin? && l.t == t {
      b := i - 1;
    } else {
      assert Unfinished(run, i - 1, t);
      b := SeenIs(run, labels, i - 1, t);
    }
  }

  /** Every answer is right for what the sets held from the beginning to the end of the call. */
  lemma Answered<T(!new)>(run: seq<State<T>>, labels: seq<Label<T>>, i: nat, t: nat) returns (b: nat)
    requires IsRun(run, labels) && SameSizes(run, i) && Unfinished(run, i, t) && run[i].threads[t].pc.Done?
    ensures SeenSince(run, labels, b, i, t) &&
            ResultOk(run[i].threads[t].op, run[i].threads[t].seen, run[i].threads[t].pc.res)
  {
    RunInv(run, labels, i);
    b := SeenIs(run, labels, i, t);
  }

  /** What an operation that only reads means for sets holding A and, the argument, B. */
  ghost function Meaning<T>(op: Op<T>, A: set<T>, B: set<T>): Result<T>
    requires !op.Add? && !op.Remove? && !op.RemoveFunc?
  {
    match op
    case Contains(_, x) => Flag(x in A)
    case Size(_) => Count(|A|)
    case Filter(_, p) => Elems(Satisfying(A, p))
    case Union(_, _) => Elems(A + B)
    case Intersection(_, _) => Elems(A * B)
    case Difference(_, _) => Elems(A - B)
    case SymmetricDifference(_, _) => Elems((A - B) + (B - A))
    case IsSubsetOf(_, _) => Flag(A <= B)
    case IsSupersetOf(_, _) => Flag(B <= A)
    case IsProperSubsetOf(_, _) => Flag(A < B)
    case IsProperSupersetOf(_, _) => Flag(B < A)
    case IsDisjoint(_, _) => Flag(A * B == {})
    case Equals(_, _) => Flag(A == B)
  }

  lemma Exact<T>(op: Op<T>, A: set<T>, B: set<T>, res: Result<T>)
    requires !op.Add? && !op.Remove? && !op.RemoveFunc?
    requires var w := if Walked(op) == op.c then A else B; var a := if Consulted(op) == op.c then A else B;
             ResultOk(op, Seen(w, w, a, a), res)
    requires Relates(op) && op.c == op.o ==> A == B
    ensures res == Meaning(op, A, B)
  {
    if A <= B {
      Smaller(A, B);
    }
    if B <= A {
      Smaller(B, A);
    }
    if res.Elems? {
      assert res.s == Meaning(op, A, B).s;
    } else if op.IsProperSubsetOf? {
      assert A < B <==> A <= B && |A| < |B|;
    } else if op.IsProperSupersetOf? {
      assert B < A <==> B <= A && |B| < |A|;
    } else if op.Equals? {
      assert A == B <==> A <= B && |A| == |B|;
    }
  }

  lemma {:induction false} Unchanged<T>(run: seq<State<T>>, k: nat, b: nat, i: nat)
    requires b <= i < |run| && k < |run[b].sets|
    requires forall j :: b <= j <= i ==> k < |run[j].sets| && run[j].sets[k] == run[b].sets[k]
    ensures Always(run, k, b, i) == Ever(run, k, b, i) == run[b].sets[k]
  {
    if b < i {
      Unchanged(run, k, b, i - 1);
    }
  }

  /** If nobody changed its sets from its beginning on, an operation that only reads answers
      exactly what it means. */
  lemma QuietAnswer<T(!new)>(run: seq<State<T>>, labels: seq<Label<T>>, i: nat, t: nat) returns (b: nat)
    requires IsRun(run, labels) && SameSizes(run, i) && Unfinished(run, i, t) && run[i].threads[t].pc.Done?
    requires var op := run[i].threads[t].op; !op.Add? && !op.Remove? && !op.RemoveFunc?
    ensures SeenSince(run, labels, b, i, t)
    ensures var op := run[i].threads[t].op; var o := if Relates(op) then op.o else op.c;
            (forall j :: b <= j <= i ==> run[j].sets[op.c] == run[b].sets[op.c] && run[j].sets[o] == run[b].sets[o]) ==>
              run[i].threads[t].pc.res == Meaning(op, run[b].sets[op.c], run[b].sets[o])
  {
    b := Answered(run, labels, i, t);
    var op := run[i].threads[t].op;
    var o := if Relates(op) then op.o else op.c;
    if forall j :: b <= j <= i ==> run[j].sets[op.c] == run[b].sets[op.c] && run[j].sets[o] == run[b].sets[o] {
      Unchanged(run, op.c, b, i);
      Unchanged(run, o, b, i);
      Exact(op, run[b].sets[op.c], run[b].sets[o], run[i].threads[t].pc.res);
    }
  }

  // ---------- Operations with a single section ----------

  predicate SingleKey<T>(op: Op<T>) {
    op.Add? || op.Remove? || op.Contains? || op.Size?
  }

  /** The operation happens between a set that holds s and the same set holding s'. */
  ghost predicate Happens<T>(op: Op<T>, s: set<T>, s': set<T>, res: Result<T>)
    requires SingleKey(op)
  {
    match op
    case Add(_, x) => s' == s + {x} && res == Flag(x !in s)
    case Remove(_, x) => s' == s - {x} && res == Flag(x in s)
    case Contains(_, x) => s' == s && res == Flag(x in s)
    case Size(_) => s' == s && res == Count(|s|)
  }

  /** At its step k thread t did the operation. */
  ghost predicate HappenedAt<T>(run: seq<State<T>>, labels: seq<Label<T>>, k: nat, t: nat, op: Op<T>, res: Result<T>)
    requires SingleKey(op)
  {
    && k < |labels| && k + 1 < |run| && labels[k] == Move(t)
    && op.c < |run[k].sets| && op.c < |run[k + 1].sets| && Happens(op, run[k].sets[op.c], run[k + 1].sets[op.c], res)
  }

  predicate Finishing<T>(pc: PC<T>, res: Result<T>) {
    pc == Done(res) || (pc.Leaving? && pc.next == Finish(res))
  }

  /** A single-key operation has no section but its own. */
  ghost predicate OneSection<T>(op: Op<T>, pc: PC<T>) {
    match pc
    case Idle => true
    case Want(plan) => plan == First(op)
    case Announced(plan) => plan == First(op)
    case Inside(plan) => plan == First(op)
    case Leaving(plan, next) => plan == First(op) && next.Finish?
    case Done(_) => true
  }

  lemma {:induction false} RunOneSection<T(!new)>(run: seq<State<T>>, labels: seq<Label<T>>, i: nat, t: nat)
    requires IsRun(run, labels) && i < |run| && t < |run[i].threads| && SingleKey(run[i].threads[t].op)
    ensures OneSection(run[i].threads[t].op, run[i].threads[t].pc)
  {
    if i > 0 {
      var l := labels[i - 1];
      assert run[i] == Do(run[i - 1], l);
      if SingleKey(run[i - 1].threads[t].op) {
        RunOneSection(run, labels, i - 1, t);
      }
    }
  }

  lemma WorkHappens<T>(op: Op<T>, s: set<T>, res: Result<T>)
    requires SingleKey(op) && Work(op, First(op), s).1 == Finish(res)
    ensures Happens(op, s, Work(op, First(op), s).0, res)
  {
  }

  /** The step before: either it was the work of the section, or the work was already done. */
  lemma StepHappens<T>(s: State<T>, l: Label<T>, s': State<T>, t: nat, op: Op<T>, res: Result<T>)
    requires Can(s, l) && s' == Do(s, l) && t < |s'.threads| && s'.threads[t].op == op
    requires SingleKey(op) && Finishing(s'.threads[t].pc, res) && OneSection(s.threads[t].op, s.threads[t].pc)
    ensures s.threads[t].op == op && !s.threads[t].pc.Idle?
    ensures if l == Move(t) && s.threads[t].pc.Inside?
            then op.c < |s.sets| && op.c < |s'.sets| && Happens(op, s.sets[op.c], s'.sets[op.c], res)
            else Finishing(s.threads[t].pc, res)
  {
    if l == Move(t) && s.threads[t].pc.Inside? {
      WorkHappens(op, s.sets[op.c], res);
    }
  }

  /** In state j thread t has the result res of its call of op. */
  ghost predicate Ready<T>(run: seq<State<T>>, j: nat, t: nat, op: Op<T>, res: Result<T>) {
    Unfinished(run, j, t) && run[j].threads[t].op == op && Finishing(run[j].threads[t].pc, res)
  }

  lemma BackOne<T(!new)>(run: seq<State<T>>, labels: seq<Label<T>>, i: nat, t: nat, op: Op<T>, res: Result<T>)
    requires IsRun(run, labels) && 0 < i && SameSizes(run, i) && Ready(run, i, t, op, res) && SingleKey(op)
    ensures Ready(run, i - 1, t, op, res) ||
            (Unfinished(run, i - 1, t) && run[i - 1].threads[t].op == op && HappenedAt(run, labels, i - 1, t, op, res))
  {
    var l := labels[i - 1];
    assert Can(run[i - 1], l) && run[i] == Do(run[i - 1], l);
    RunOneSection(run, labels, i - 1, t);
    StepHappens(run[i - 1], l, run[i], t, op, res);
  }

  /** Something became so by a step that did it. */
  lemma {:induction false} Switch(so: seq<bool>, did: seq<bool>, i: nat) returns (k: nat)
    requires i < |so| <= |did| && !so[0] && so[i]
    requires forall j :: 0 < j < |so| && so[j] ==> so[j - 1] || did[j - 1]
    ensures k < i && did[k]
  {
    k := i - 1;
    if so[i - 1] {
      k := Switch(so, did, i - 1);
    }
  }

  /** The step at which an unfinished call began. */
  lemma BeganAt<T(!new)>(run: seq<State<T>>, labels: seq<Label<T>>, i: nat, t: nat) returns (b: nat)
    requires IsRun(run, labels) && SameSizes(run, i) && Unfinished(run, i, t)
    ensures b < i && b < |labels| && labels[b] == Begin(t, run[i].threads[t].op)
  {
    b := SeenIs(run, labels, i, t);
  }

  /** Single-key operations are atomic: each happens at one step of its own, between its
      beginning and its end. */
  lemma Atomic<T(!new)>(run: seq<State<T>>, labels: seq<Label<T>>, i: nat, t: nat, res: Result<T>)
    returns (b: nat, k: nat)
    requires IsRun(run, labels) && SameSizes(run, i) && Unfinished(run, i, t)
    requires SingleKey(run[i].threads[t].op) && Finishing(run[i].threads[t].pc, res)
    ensures b < k < i && b < |labels| && labels[b] == Begin(t, run[i].threads[t].op)
    ensures HappenedAt(run, labels, k, t, run[i].threads[t].op, res)
  {
    var op := run[i].threads[t].op;
    var ready := seq(i + 1, j requires 0 <= j <= i => Ready(run, j, t, op, res));
    var did := seq(i + 1, j requires 0 <= j <= i =>
      Unfinished(run, j, t) && run[j].threads[t].op == op && HappenedAt(run, labels, j, t, op, res));
    forall j | 0 < j < |ready| && ready[j]
      ensures ready[j - 1] || did[j - 1]
    {
      BackOne(run, labels, j, t, op, res);
    }
    k := Switch(ready, did, i);
    b := BeganAt(run, labels, k, t);
  }

  // ---------- RemoveFunc ----------

  /** At its step k thread t took dels out of the set, and res counts what was there. */
  ghost predicate RemovedAt<T>(run: seq<State<T>>, labels: seq<Label<T>>, k: nat, t: nat, c: nat, dels: set<T>,
                               res: Result<T>) {
    && k < |labels| && k + 1 < |run| && labels[k] == Move(t) && c < |run[k].sets| && c < |run[k + 1].sets|
    && run[k + 1].sets[c] == run[k].sets[c] - dels && res == Count(|run[k].sets[c] * dels|)
  }

  /** What the last section of RemoveFunc takes out: the elements of its snapshot, if any. */
  lemma WorkRemoves<T>(op: Op<T>, plan: Plan<T>, s: set<T>, v: Seen<T>, res: Result<T>) returns (dels: set<T>)
    requires op.RemoveFunc? && PlanOk(op, plan, v) && v.walkedAlways <= s && Work(op, plan, s).1 == Finish(res)
    ensures Work(op, plan, s).0 == s - dels && res == Count(|s * dels|)
    ensures Between(Satisfying(v.walkedAlways, op.pred), dels, Satisfying(v.walkedEver, op.pred))
  {
    dels := if plan.Delete? then plan.dels else {};
    assert plan.Snapshot? ==> s * dels == {} && s - dels == s;
  }

  /** ... and elements satisfying the predicate, among them every one that was in the set all
      the time since step b. */
  ghost predicate RemovedSince<T>(run: seq<State<T>>, labels: seq<Label<T>>, b: nat, k: nat, t: nat, op: Op<T>,
                                  dels: set<T>, res: Result<T>)
    requires op.RemoveFunc? && b <= k && SameSizes(run, k) && op.c < |run[0].sets|
  {
    && RemovedAt(run, labels, k, t, op.c, dels, res)
    && Between(Satisfying(Always(run, op.c, b, k), op.pred), dels, Satisfying(Ever(run, op.c, b, k), op.pred))
  }

  /** The last section of RemoveFunc. */
  ghost predicate RemovesAt<T>(run: seq<State<T>>, labels: seq<Label<T>>, k: nat, t: nat, op: Op<T>,
                               dels: set<T>, res: Result<T>)
    requires op.RemoveFunc?
  {
    && Unfinished(run, k, t) && run[k].threads[t].op == op && RemovedAt(run, labels, k, t, op.c, dels, res)
    && Between(Satisfying(run[k].threads[t].seen.walkedAlways, op.pred), dels,
               Satisfying(run[k].threads[t].seen.walkedEver, op.pred))
  }

  ghost predicate Removes<T(!new)>(run: seq<State<T>>, labels: seq<Label<T>>, k: nat, t: nat, op: Op<T>, res: Result<T>)
    requires op.RemoveFunc?
  {
    exists dels :: RemovesAt(run, labels, k, t, op, dels, res)
  }

  lemma RemovesBack<T(!new)>(run: seq<State<T>>, labels: seq<Label<T>>, i: nat, t: nat, op: Op<T>, res: Result<T>)
    requires IsRun(run, labels) && 0 < i && SameSizes(run, i) && Ready(run, i, t, op, res) && op.RemoveFunc?
    ensures Ready(run, i - 1, t, op, res) || Removes(run, labels, i - 1, t, op, res)
  {
    var l := labels[i - 1];
    assert Can(run[i - 1], l) && run[i] == Do(run[i - 1], l);
    var th := run[i - 1].threads[t];
    if l == Move(t) && th.pc.Inside? {
      RunInv(run, labels, i - 1);
      assert ThreadOk(run[i - 1].sets, th);
      var dels := WorkRemoves(op, th.pc.plan, run[i - 1].sets[op.c], th.seen, res);
      assert RemovesAt(run, labels, i - 1, t, op, dels, res);
    }
  }

  /** RemoveFunc removes, in one step, elements satisfying the predicate, among them every one
      that was in the set all the time, and counts those it found. */
  lemma RemovesOnce<T(!new)>(run: seq<State<T>>, labels: seq<Label<T>>, i: nat, t: nat, res: Result<T>)
    returns (b: nat, k: nat, dels: set<T>)
    requires IsRun(run, labels) && SameSizes(run, i) && Unfinished(run, i, t)
    requires run[i].threads[t].op.RemoveFunc? && Finishing(run[i].threads[t].pc, res)
    ensures b < k < i && b < |labels| && labels[b] == Begin(t, run[i].threads[t].op)
    ensures RemovedSince(run, labels, b, k, t, run[i].threads[t].op, dels, res)
  {
    var op := run[i].threads[t].op;
    var ready := seq(i + 1, j requires 0 <= j <= i => Ready(run, j, t, op, res));
    var did := seq(i + 1, j requires 0 <= j <= i => Removes(run, labels, j, t, op, res));
    forall j | 0 < j < |ready| && ready[j]
      ensures ready[j - 1] || did[j - 1]
    {
      RemovesBack(run, labels, j, t, op, res);
    }
    k := Switch(ready, did, i);
    dels :| RemovesAt(run, labels, k, t, op, dels, res);
    b := SeenIs(run, labels, k, t);
  }
}
