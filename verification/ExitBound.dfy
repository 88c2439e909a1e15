/** How long fork, exit and wait can take altogether (kernel/proc.c), and that whatever is begun comes to rest. */
module ExitBound {
  import opened Collections
  import opened ExitWait
  import opened ExitProgress

  // ---------------------------------------------------------------- the work there is to do

  /** m times k. */
  function Times(m: nat, k: nat): (r: nat) {
    if m == 0 then 0 else Times(m - 1, k) + k
  }

  lemma {:induction false} TimesIs(m: nat, k: nat)
    ensures Times(m, k) == m * k
  {
    if m > 0 { TimesIs(m - 1, k); }
  }

  lemma {:induction false} TimesMore(x: nat, y: nat, k: nat)
    requires x < y
    ensures Times(x, k) + k <= Times(y, k)
  {
    if x + 1 < y { TimesMore(x, y - 1, k); }
  }

  /** The slots that the wakeups of a process at c have still to examine, and the rounds of reparent. */
  function Exams(c: Pc, n: nat): (k: nat) {
    match c
    case ExitWant => Times(n, n + 1) + n
    case Reparent(i) => if i <= n then Times(n - i, n + 1) + n else 0
    case InitWake(i, j) => if i < n && j <= n then Times(n - i - 1, n + 1) + (n - j) + 1 + n else 0
    case InitWakeAt(i, j) => if i < n && j <= n then Times(n - i - 1, n + 1) + (n - j) + 1 + n else 0
    case ParentWake(j) => if j <= n then n - j else 0
    case ParentWakeAt(j) => if j <= n then n - j else 0
    case _ => 0
  }

  /** Where a process at c is otherwise. One that a wakeup or kill has made runnable has its children to look at again. */
  function Level(c: Pc, r: RunState, n: nat): (k: nat) {
    match c
    case Absent | Embryo | Running | Dead => 0
    case Fresh => 2
    case Forkret => 1
    case Linking(_) => 5
    case Readying(_) => 4
    case ExitWant => 7
    case Reparent(_) => 6
    case InitWake(_, _) | ParentWake(_) => 5
    case InitWakeAt(_, _) | ParentWakeAt(_) | ExitLock => 4
    case Zombify => 3
    case ExitDrop => 2
    case ZSwitched => 1
    case WaitWant => 2 * n + 8
    case Scan(i, _) => if i <= n then 2 * (n - i) + 7 else 0
    case ScanAt(i) => if i < n then 2 * (n - i) + 6 else 0
    case Falling => 6
    case Dropping => 5
    case Setting => 4
    case Switched => 3
    case Asleep => if r == Sleeping then 2 else 2 * n + 10
    case Woken => 2 * n + 9
  }

  function WeightOf(s: State, p: nat): (k: nat)
    requires SizesOk(s) && p < |s.pc|
  {
    Times(Exams(s.pc[p], |s.pc|), 2 * |s.pc| + 16) + Level(s.pc[p], s.run[p], |s.pc|)
  }

  function Weights(s: State): (ws: seq<nat>)
    requires SizesOk(s)
  {
    seq(|s.pc|, p requires 0 <= p < |s.pc| => WeightOf(s, p))
  }

  /** What all processes together have still to do. */
  function Work(s: State): (n: nat)
    requires SizesOk(s)
  {
    Sum(Weights(s))
  }

  predicate Alike(s: State, s': State, q: nat)
    requires SizesOk(s) && SizesOk(s') && |s'.pc| == |s.pc| && q < |s.pc|
  {
    s'.pc[q] == s.pc[q] && s'.run[q] == s.run[q]
  }

  /** A step that changes where p is and perhaps y, and nobody else. */
  lemma TwoChange(s: State, s': State, p: nat, y: nat)
    requires SizesOk(s) && SizesOk(s') && |s'.pc| == |s.pc| && p < |s.pc| && y < |s.pc|
    requires forall q: nat {:trigger Alike(s, s', q)} | q < |s.pc| && q != p && q != y :: Alike(s, s', q)
    ensures Work(s') == Work(s) - WeightOf(s, p) + WeightOf(s', p)
                        + if y == p then 0 else WeightOf(s', y) - WeightOf(s, y)
  {
    var ws1: seq<nat> := Weights(s)[p := WeightOf(s', p)];
    SumUpdate(Weights(s), p, WeightOf(s', p));
    forall q: nat | q < |s.pc| && q != p && q != y ensures WeightOf(s', q) == WeightOf(s, q) { assert Alike(s, s', q); }
    if y != p {
      SumUpdate(ws1, y, WeightOf(s', y));
      assert Weights(s') == ws1[y := WeightOf(s', y)];
    } else {
      assert Weights(s') == ws1;
    }
  }

  // ---------------------------------------------------------------- each step does some of it

  /** The slot that a step of p may change beside its own. */
  function Touched(c: Pc, p: nat): (y: nat) {
    match c
    case InitWakeAt(_, j) => j
    case ParentWakeAt(j) => j
    case Readying(np) => np
    case ScanAt(i) => i
    case _ => p
  }

  lemma OthersAlike(s: State, p: nat, q: nat)
    requires Inv(s) && Kin(s) && p < |s.pc| && CanAct(s, p) && q < |s.pc| && q != p && q != Touched(s.pc[p], p)
    ensures |Act(s, p).pc| == |s.pc| && Alike(s, Act(s, p), q)
  {
    if s.pc[p].ScanAt? {
    } else if s.pc[p].Readying? {
    } else if s.pc[p].InitWakeAt? || s.pc[p].ParentWakeAt? {
    } else {
    }
  }

  /** The change in the work of p and of the slot it touches. */
  predicate Lessens(s: State, s': State, p: nat)
    requires SizesOk(s) && SizesOk(s') && |s'.pc| == |s.pc| && p < |s.pc|
  {
    var y := Touched(s.pc[p], p);
    && y < |s.pc|
    && WeightOf(s', p) + (if y == p then 0 else WeightOf(s', y)) < WeightOf(s, p) + if y == p then 0 else WeightOf(s, y)
  }

  lemma ForkLess(s: State, p: nat)
    requires Inv(s) && Kin(s) && p < |s.pc| && CanAct(s, p) && (s.pc[p].Forkret? || s.pc[p].Linking? || s.pc[p].Readying?)
    ensures |Act(s, p).pc| == |s.pc| && Lessens(s, Act(s, p), p)
  {
    assert ProcOk(s, p) && KinOk(s, p);
  }

  /** A process that goes from c to c' and has fewer slots to examine, or as many and is further on. */
  predicate Fewer(c: Pc, c': Pc, n: nat) {
    Exams(c', n) < Exams(c, n) || (Exams(c', n) == Exams(c, n) && Level(c', OnCpu, n) < Level(c, OnCpu, n))
  }

  lemma FewerLess(s: State, s': State, p: nat)
    requires SizesOk(s) && SizesOk(s') && |s'.pc| == |s.pc| && p < |s.pc| && Fewer(s.pc[p], s'.pc[p], |s.pc|)
    requires !s.pc[p].Asleep? && !s'.pc[p].Asleep? && Level(s'.pc[p], OnCpu, |s.pc|) <= 7
    ensures WeightOf(s', p) < WeightOf(s, p)
    ensures Exams(s'.pc[p], |s.pc|) < Exams(s.pc[p], |s.pc|) ==> WeightOf(s', p) + 2 * |s.pc| + 9 <= WeightOf(s, p)
  {
    var n := |s.pc|;
    var x, y := Exams(s'.pc[p], n), Exams(s.pc[p], n);
    if x < y {
      TimesMore(x, y, 2 * n + 16);
    }
  }

  lemma ReparentLess(s: State, p: nat)
    requires Inv(s) && Kin(s) && p < |s.pc| && CanAct(s, p) && (s.pc[p].ExitWant? || s.pc[p].Reparent?)
    ensures |Act(s, p).pc| == |s.pc| && Lessens(s, Act(s, p), p)
  {
    assert KinOk(s, p);
    FewerLess(s, Act(s, p), p);
  }

  lemma WakeLess(s: State, p: nat)
    requires Inv(s) && Kin(s) && p < |s.pc| && CanAct(s, p) && (s.pc[p].InitWake? || s.pc[p].ParentWake?)
    ensures |Act(s, p).pc| == |s.pc| && Lessens(s, Act(s, p), p)
  {
    assert KinOk(s, p);
    FewerLess(s, Act(s, p), p);
  }

  lemma WakeAtLess(s: State, p: nat)
    requires Inv(s) && Kin(s) && p < |s.pc| && CanAct(s, p) && (s.pc[p].InitWakeAt? || s.pc[p].ParentWakeAt?)
    ensures |Act(s, p).pc| == |s.pc| && Lessens(s, Act(s, p), p)
  {
    assert ProcOk(s, p) && KinOk(s, p);
    FewerLess(s, Act(s, p), p);
    Woke(s, Act(s, p), Touched(s.pc[p], p));
  }

  /** Being woken adds no more than a look at all children. */
  lemma Woke(s: State, s': State, j: nat)
    requires Inv(s) && SizesOk(s') && |s'.pc| == |s.pc| && j < |s.pc| && s'.pc[j] == s.pc[j]
    requires s'.run[j] == s.run[j] || (s.run[j] == Sleeping && s'.run[j] == Runnable)
    ensures WeightOf(s', j) <= WeightOf(s, j) + 2 * |s.pc| + 8
  {
  }

  lemma ExitLess(s: State, p: nat)
    requires Inv(s) && Kin(s) && p < |s.pc| && CanAct(s, p) && (s.pc[p].ExitLock? || s.pc[p].Zombify? || s.pc[p].ExitDrop?)
    ensures |Act(s, p).pc| == |s.pc| && Lessens(s, Act(s, p), p)
  {
  }

  lemma ScanLess(s: State, p: nat)
    requires Inv(s) && Kin(s) && p < |s.pc| && CanAct(s, p) && (s.pc[p].WaitWant? || s.pc[p].Scan?)
    ensures |Act(s, p).pc| == |s.pc| && Lessens(s, Act(s, p), p)
  {
    assert KinOk(s, p);
  }

  lemma ReapLess(s: State, p: nat)
    requires Inv(s) && Kin(s) && p < |s.pc| && CanAct(s, p) && s.pc[p].ScanAt? && s.run[s.pc[p].i] == Zombie
    ensures |Act(s, p).pc| == |s.pc| && Lessens(s, Act(s, p), p)
  {
    assert ProcOk(s, p);
    var s', i := Act(s, p), s.pc[p].i;
    assert s'.pc[i] == Absent && s'.pc[p] == Running;
    assert WeightOf(s', i) == 0 && WeightOf(s', p) == 0;
  }

  lemma PassLess(s: State, p: nat)
    requires Inv(s) && Kin(s) && p < |s.pc| && CanAct(s, p) && s.pc[p].ScanAt? && s.run[s.pc[p].i] != Zombie
    ensures |Act(s, p).pc| == |s.pc| && Lessens(s, Act(s, p), p)
  {
    assert ProcOk(s, p);
    assert Alike(s, Act(s, p), s.pc[p].i);
  }

  lemma SleepLess(s: State, p: nat)
    requires Inv(s) && Kin(s) && p < |s.pc| && CanAct(s, p)
    requires s.pc[p].Falling? || s.pc[p].Dropping? || s.pc[p].Setting? || s.pc[p].Woken?
    ensures |Act(s, p).pc| == |s.pc| && Lessens(s, Act(s, p), p)
  {
  }

  lemma ActLess(s: State, p: nat)
    requires Inv(s) && Kin(s) && p < |s.pc| && CanAct(s, p)
    ensures |Act(s, p).pc| == |s.pc| && Lessens(s, Act(s, p), p)
  {
    match s.pc[p]
    case Forkret | Linking(_) | Readying(_) => ForkLess(s, p);
    case ExitWant | Reparent(_) => ReparentLess(s, p);
    case InitWake(_, _) | ParentWake(_) => WakeLess(s, p);
    case InitWakeAt(_, _) | ParentWakeAt(_) => WakeAtLess(s, p);
    case ExitLock | Zombify | ExitDrop => ExitLess(s, p);
    case WaitWant | Scan(_, _) => ScanLess(s, p);
    case ScanAt(i) => if s.run[i] == Zombie { ReapLess(s, p); } else { PassLess(s, p); }
    case Falling | Dropping | Setting | Woken => SleepLess(s, p);
  }

  lemma ActWorks(s: State, p: nat)
    requires Inv(s) && Kin(s) && p < |s.pc| && CanAct(s, p)
    ensures |Act(s, p).pc| == |s.pc| && Work(Act(s, p)) < Work(s)
  {
    ActLess(s, p);
    var s', y := Act(s, p), Touched(s.pc[p], p);
    forall q: nat | q < |s.pc| && q != p && q != y ensures Alike(s, s', q) { OthersAlike(s, p, q); }
    TwoChange(s, s', p, y);
  }

  /** What a call of exit, wait or fork, or a kill, may bring with it in steps, in a table of n slots. */
  function Cost(step: Step, n: nat): (k: nat) {
    if step.Runs? then 0 else
      match step.o
      case Exits(_) => (n * (n + 1) + n) * (2 * n + 16) + 8
      case Waits(_) => 2 * n + 9
      case Forks(_, _) => 6
      case Kill(_) => 2 * n + 9
      case _ => 0
  }

  lemma ExitsLess(s: State, p: nat)
    requires Inv(s) && CanOther(s, Exits(p))
    ensures var s' := Else(s, Exits(p));
            |s'.pc| == |s.pc| && WeightOf(s', p) + 1 <= WeightOf(s, p) + Cost(Elsewhere(Exits(p)), |s.pc|)
  {
    var n := |s.pc|;
    TimesIs(n, n + 1);
    TimesIs(n * (n + 1) + n, 2 * n + 16);
  }

  lemma SchedulerLess(s: State, o: Other)
    requires Inv(s) && CanOther(s, o) && (o.Release? || o.Pick? || o.CopyFails?)
    ensures |Else(s, o).pc| == |s.pc| && WeightOf(Else(s, o), o.p) < WeightOf(s, o.p)
  {
    assert ProcOk(s, o.p);
  }

  lemma ElseLess(s: State, o: Other)
    requires Inv(s) && CanOther(s, o)
    ensures |Else(s, o).pc| == |s.pc| && WeightOf(Else(s, o), o.p) + 1 <= WeightOf(s, o.p) + Cost(Elsewhere(o), |s.pc|)
  {
    if o.Exits? {
      ExitsLess(s, o.p);
    } else if o.Kill? {
      Woke(s, Else(s, o), o.p);
    } else if !o.Waits? && !o.Forks? {
      SchedulerLess(s, o);
    }
  }

  lemma ElseAlike(s: State, o: Other, q: nat)
    requires SizesOk(s) && CanOther(s, o) && q < |s.pc| && q != o.p && (o.Forks? ==> q != o.np)
    ensures |Else(s, o).pc| == |s.pc| && Alike(s, Else(s, o), q)
  {
  }

  lemma ElseWorks(s: State, o: Other)
    requires Inv(s) && CanOther(s, o)
    ensures |Else(s, o).pc| == |s.pc| && Work(Else(s, o)) + 1 <= Work(s) + Cost(Elsewhere(o), |s.pc|)
  {
    ElseLess(s, o);
    var s', y := Else(s, o), if o.Forks? then o.np else o.p;
    forall q: nat | q < |s.pc| && q != o.p && q != y ensures Alike(s, s', q) { ElseAlike(s, o, q); }
    TwoChange(s, s', o.p, y);
    if o.Forks? { assert ProcOk(s, y); }
  }

  /** What the first k steps may bring with them. */
  function Due(steps: seq<Step>, k: nat, n: nat): (d: nat)
    requires k <= |steps|
  {
    if k == 0 then 0 else Due(steps, k - 1, n) + Cost(steps[k - 1], n)
  }

  /** In every run, whatever the interleaving, the steps of all processes and the scheduler together are bounded by what
      was begun: nobody spins, and no two keep waking each other. */
  lemma {:induction false} StepsBounded(run: seq<State>, steps: seq<Step>, n: nat, k: nat)
    requires IsRun(run, steps, n) && k < |run|
    ensures SizesOk(run[k]) && |run[k].pc| == n + 1 && Work(run[k]) + k <= Due(steps, k, n + 1)
  {
    if k == 0 {
      SumZero(Weights(run[0]));
    } else {
      StepsBounded(run, steps, n, k - 1);
      RunKin(run, steps, n, k - 1);
      assert StepAt(run, steps, k - 1);
      match steps[k - 1]
      case Runs(p) => ActWorks(run[k - 1], p);
      case Elsewhere(o) => ElseWorks(run[k - 1], o);
    }
  }
}
