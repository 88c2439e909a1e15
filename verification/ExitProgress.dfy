/** What fork, exit and wait get done (kernel/proc.c): a child belongs to the process that forked it, wait frees the exited
    child it finds, every loop ends, and processes in this code never all wait for one another. */
module ExitProgress {
  import opened Options
  import opened ExitWait

  // ---------------------------------------------------------------- kin

  /** Process p in a loop is at a slot of the table, or at its end; in fork and in wait it is dealing with a child. */
  predicate KinOk(s: State, p: nat)
    requires SizesOk(s) && p < |s.pc|
  {
    var n := |s.pc|;
    match s.pc[p]
    case Readying(np) => np < n && s.parent[np] == Some(p)
    case ScanAt(i) => i < n && s.parent[i] == Some(p)
    case Reparent(i) => i <= n
    case InitWake(i, j) => i < n && j <= n
    case InitWakeAt(i, j) => i < n && j < n
    case ParentWake(j) => j <= n
    case ParentWakeAt(j) => j < n
    case Scan(i, _) => i <= n
    case _ => true
  }

  predicate Kin(s: State)
    requires SizesOk(s)
  {
    forall p: nat {:trigger KinOk(s, p)} | p < |s.pc| :: KinOk(s, p)
  }

  // ---------------------------------------------------------------- every loop ends

  datatype Rank = Rank(major: nat, middle: nat, minor: nat)

  predicate Less(a: Rank, b: Rank) {
    || a.major < b.major || (a.major == b.major && a.middle < b.middle)
    || (a.major == b.major && a.middle == b.middle && a.minor < b.minor)
  }

  function Left(n: nat, i: nat): (d: nat) { if i <= n then 2 * (n - i) else 0 }

  /** How far a process is from the end of fork, exit or wait, in a table of n slots. */
  function RankOf(c: Pc, n: nat): (r: Rank) {
    match c
    case Absent | Embryo | Running => Rank(0, 0, 0)
    case Fresh => Rank(2, 0, 0)
    case Forkret => Rank(1, 0, 0)
    case Linking(_) => Rank(2, 0, 0)
    case Readying(_) => Rank(1, 0, 0)
    case ExitWant => Rank(9, 0, 0)
    case Reparent(i) => Rank(8, Left(n, i), 2 * n + 2)
    case InitWake(i, j) => Rank(8, Left(n, i), Left(n, j) + 1)
    case InitWakeAt(i, j) => Rank(8, Left(n, i), Left(n, j))
    case ParentWake(j) => Rank(7, 0, Left(n, j) + 1)
    case ParentWakeAt(j) => Rank(7, 0, Left(n, j))
    case ExitLock => Rank(6, 0, 0)
    case Zombify => Rank(5, 0, 0)
    case ExitDrop => Rank(4, 0, 0)
    case ZSwitched => Rank(3, 0, 0)
    case Dead => Rank(2, 0, 0)
    case WaitWant => Rank(9, 0, 0)
    case Scan(i, _) => Rank(8, 0, Left(n, i) + 1)
    case ScanAt(i) => Rank(8, 0, Left(n, i))
    case Falling => Rank(7, 0, 0)
    case Dropping => Rank(6, 0, 0)
    case Setting => Rank(5, 0, 0)
    case Switched => Rank(4, 0, 0)
    case Asleep => Rank(3, 0, 0)
    case Woken => Rank(2, 0, 0)
  }

  /** Process p keeps to the table, and is nearer to the end, or woken and beginning again. */
  predicate Forward(s: State, s': State, p: nat)
    requires SizesOk(s) && SizesOk(s') && p < |s.pc|
  {
    && |s'.pc| == |s.pc| && KinOk(s', p)
    && if s.pc[p] == Woken then s'.pc[p] == WaitWant else Less(RankOf(s'.pc[p], |s.pc|), RankOf(s.pc[p], |s.pc|))
  }

  lemma ForkForward(s: State, p: nat)
    requires Inv(s) && Kin(s) && p < |s.pc| && CanAct(s, p) && (s.pc[p].Forkret? || s.pc[p].Linking? || s.pc[p].Readying?)
    ensures Forward(s, Act(s, p), p)
  {
    assert ProcOk(s, p) && KinOk(s, p);
  }

  lemma ExitLoopForward(s: State, p: nat)
    requires Inv(s) && Kin(s) && p < |s.pc| && CanAct(s, p) && (s.pc[p].ExitWant? || s.pc[p].Reparent?)
    ensures Forward(s, Act(s, p), p)
  {
    assert ProcOk(s, p) && KinOk(s, p);
  }

  lemma InitWakeForward(s: State, p: nat)
    requires Inv(s) && Kin(s) && p < |s.pc| && CanAct(s, p) && (s.pc[p].InitWake? || s.pc[p].InitWakeAt?)
    ensures Forward(s, Act(s, p), p)
  {
    assert ProcOk(s, p) && KinOk(s, p);
  }

  lemma ParentWakeForward(s: State, p: nat)
    requires Inv(s) && Kin(s) && p < |s.pc| && CanAct(s, p) && (s.pc[p].ParentWake? || s.pc[p].ParentWakeAt?)
    ensures Forward(s, Act(s, p), p)
  {
    assert ProcOk(s, p) && KinOk(s, p);
  }

  lemma ExitEndForward(s: State, p: nat)
    requires Inv(s) && Kin(s) && p < |s.pc| && CanAct(s, p) && (s.pc[p].ExitLock? || s.pc[p].Zombify? || s.pc[p].ExitDrop?)
    ensures Forward(s, Act(s, p), p)
  {
    assert ProcOk(s, p) && KinOk(s, p);
  }

  lemma WaitForward(s: State, p: nat)
    requires Inv(s) && Kin(s) && p < |s.pc| && CanAct(s, p) && (s.pc[p].WaitWant? || s.pc[p].Scan?)
    ensures Forward(s, Act(s, p), p)
  {
    assert ProcOk(s, p) && KinOk(s, p);
  }

  lemma WaitAtForward(s: State, p: nat)
    requires Inv(s) && Kin(s) && p < |s.pc| && CanAct(s, p) && (s.pc[p].ScanAt?)
    ensures Forward(s, Act(s, p), p)
  {
    assert ProcOk(s, p) && KinOk(s, p);
    assert ProcOk(s, s.pc[p].i);
  }

  lemma SleepForward(s: State, p: nat)
    requires Inv(s) && Kin(s) && p < |s.pc| && CanAct(s, p)
    requires s.pc[p].Falling? || s.pc[p].Dropping? || s.pc[p].Setting? || s.pc[p].Woken?
    ensures Forward(s, Act(s, p), p)
  {
    assert ProcOk(s, p) && KinOk(s, p);
  }

  /** The step of p itself. */
  lemma ActForward(s: State, p: nat)
    requires Inv(s) && Kin(s) && p < |s.pc| && CanAct(s, p)
    ensures Forward(s, Act(s, p), p)
  {
    match s.pc[p]
    case Forkret | Linking(_) | Readying(_) => ForkForward(s, p);
    case ExitWant | Reparent(_) => ExitLoopForward(s, p);
    case InitWake(_, _) | InitWakeAt(_, _) => InitWakeForward(s, p);
    case ParentWake(_) | ParentWakeAt(_) => ParentWakeForward(s, p);
    case ExitLock | Zombify | ExitDrop => ExitEndForward(s, p);
    case WaitWant | Scan(_, _) => WaitForward(s, p);
    case ScanAt(_) => WaitAtForward(s, p);
    case Falling | Dropping | Setting | Woken => SleepForward(s, p);
  }

  // ---------------------------------------------------------------- the others stay where they are

  lemma LinkingKin(s: State, p: nat, x: nat)
    requires Inv(s) && Kin(s) && p < |s.pc| && x < |s.pc| && x != p && CanAct(s, p) && s.pc[p].Linking?
    ensures |Act(s, p).pc| == |s.pc| && KinOk(Act(s, p), x)
  {
    assert ProcOk(s, p) && ProcOk(s, x) && KinOk(s, x);
    assert ProcOk(s, s.pc[p].np);
    if s.pc[x].Readying? { assert ProcOk(s, s.pc[x].np); }
  }

  lemma ReadyingKin(s: State, p: nat, x: nat)
    requires Inv(s) && Kin(s) && p < |s.pc| && x < |s.pc| && x != p && CanAct(s, p) && s.pc[p].Readying?
    ensures |Act(s, p).pc| == |s.pc| && KinOk(Act(s, p), x)
  {
    assert ProcOk(s, p) && ProcOk(s, x) && KinOk(s, x);
  }

  lemma ReparentKin(s: State, p: nat, x: nat)
    requires Inv(s) && Kin(s) && p < |s.pc| && x < |s.pc| && x != p && CanAct(s, p) && s.pc[p].Reparent?
    ensures |Act(s, p).pc| == |s.pc| && KinOk(Act(s, p), x)
  {
    assert ProcOk(s, p) && ProcOk(s, x) && KinOk(s, x);
  }

  lemma ScanAtKin(s: State, p: nat, x: nat)
    requires Inv(s) && Kin(s) && p < |s.pc| && x < |s.pc| && x != p && CanAct(s, p) && s.pc[p].ScanAt?
    ensures |Act(s, p).pc| == |s.pc| && KinOk(Act(s, p), x)
  {
    assert ProcOk(s, p) && ProcOk(s, x) && KinOk(s, x);
    assert ProcOk(s, s.pc[p].i);
    if s.pc[x].Readying? { assert ProcOk(s, s.pc[x].np); }
  }

  /** Every other step leaves parents alone, and where the other processes are. */
  lemma ParentsKept(s: State, p: nat, x: nat)
    requires SizesOk(s) && p < |s.pc| && x < |s.pc| && x != p && CanAct(s, p)
    requires !s.pc[p].Linking? && !s.pc[p].Readying? && !s.pc[p].Reparent? && !s.pc[p].ScanAt?
    ensures |Act(s, p).pc| == |s.pc| && Act(s, p).parent == s.parent && Act(s, p).pc[x] == s.pc[x]
  {
  }

  lemma OtherKin(s: State, p: nat, x: nat)
    requires Inv(s) && Kin(s) && p < |s.pc| && x < |s.pc| && x != p && CanAct(s, p)
    ensures |Act(s, p).pc| == |s.pc| && KinOk(Act(s, p), x)
  {
    if s.pc[p].Linking? {
      LinkingKin(s, p, x);
    } else if s.pc[p].Readying? {
      ReadyingKin(s, p, x);
    } else if s.pc[p].Reparent? {
      ReparentKin(s, p, x);
    } else if s.pc[p].ScanAt? {
      ScanAtKin(s, p, x);
    } else {
      ParentsKept(s, p, x);
      assert KinOk(s, x);
    }
  }

  lemma ElseKin(s: State, o: Other, x: nat)
    requires Inv(s) && Kin(s) && CanOther(s, o) && x < |s.pc|
    ensures |Else(s, o).pc| == |s.pc| && KinOk(Else(s, o), x)
  {
    assert KinOk(s, x);
  }

  lemma {:induction false} RunKin(run: seq<State>, steps: seq<Step>, n: nat, k: nat)
    requires IsRun(run, steps, n) && k < |run|
    ensures Inv(run[k]) && Kin(run[k])
  {
    RunInv(run, steps, n, k);
    if k == 0 {
      forall p: nat | p < |run[0].pc| ensures KinOk(run[0], p) { }
    } else {
      RunKin(run, steps, n, k - 1);
      assert StepAt(run, steps, k - 1);
      forall x: nat | x < |run[k].pc|
        ensures KinOk(run[k], x)
      {
        match steps[k - 1]
        case Runs(p) => if x == p { ActForward(run[k - 1], p); } else { OtherKin(run[k - 1], p, x); }
        case Elsewhere(o) => ElseKin(run[k - 1], o, x);
      }
    }
  }

  // ---------------------------------------------------------------- the effect of a step

  /** Slot x keeps its state, its parent and its counts. */
  predicate SlotKept(s: State, s': State, x: nat)
    requires SizesOk(s) && SizesOk(s') && x < |s.pc| == |s'.pc|
  {
    && s'.run[x] == s.run[x] && s'.parent[x] == s.parent[x] && s'.exits[x] == s.exits[x] && s'.frees[x] == s.frees[x]
    && s'.killed[x] == s.killed[x] && s'.chan[x] == s.chan[x]
  }

  /** wait that finds an exited child, which is one of its own, frees its slot, once, and no other; it lets go of both
      locks and returns. */
  lemma WaitReaps(run: seq<State>, steps: seq<Step>, n: nat, k: nat, p: nat, i: nat)
    requires IsRun(run, steps, n) && k < |steps| && steps[k] == Runs(p) && SizesOk(run[k]) && p < |run[k].pc|
    requires i < |run[k].pc| && run[k].pc[p] == ScanAt(i) && run[k].run[i] == Zombie
    ensures var s, s' := run[k], run[k + 1];
            && s.parent[i] == Some(p) && SizesOk(s') && |s'.pc| == |s.pc|
            && s'.run[i] == Unused && s'.parent[i] == None && s'.chan[i] == None && !s'.killed[i]
            && s'.frees[i] == s.frees[i] + 1 && s'.exits[i] == s.exits[i]
            && s'.pc[p] == Running && s'.wl == None && s'.plock[i] == None
            && forall x: nat | x < |s.pc| && x != i :: SlotKept(s, s', x)
  {
    RunKin(run, steps, n, k);
    assert StepAt(run, steps, k) && KinOk(run[k], p);
    assert ProcOk(run[k], p);
  }

  /** wait that has looked at every slot returns exactly if it has no child or has been killed, and otherwise goes on to
      sleep; either way it found no exited child. */
  lemma WaitDecides(run: seq<State>, steps: seq<Step>, n: nat, k: nat, p: nat, i: nat, kids: bool)
    requires IsRun(run, steps, n) && k < |steps| && steps[k] == Runs(p) && SizesOk(run[k]) && p < |run[k].pc|
    requires run[k].pc[p] == Scan(i, kids) && i == |run[k].pc|
    ensures var s, s' := run[k], run[k + 1];
            && SizesOk(s') && |s'.pc| == |s.pc|
            && (forall x: nat | x < |s.pc| && s.parent[x] == Some(p) :: kids && s.run[x] != Zombie)
            && if kids && !s.killed[p] then s'.pc[p] == Falling && s'.wl == Some(p) else s'.pc[p] == Running && s'.wl == None
  {
    RunInv(run, steps, n, k);
    assert StepAt(run, steps, k) && ProcOk(run[k], p);
    forall x: nat | x < |run[k].pc| && run[k].parent[x] == Some(p)
      ensures kids && run[k].run[x] != Zombie
    {
      assert PairOk(run[k], p, x);
    }
  }

  /** A process that fork makes runnable is a child of the process that forked it, which has done with it. */
  lemma ForkLinks(run: seq<State>, steps: seq<Step>, n: nat, k: nat, p: nat, np: nat)
    requires IsRun(run, steps, n) && k < |steps| && steps[k] == Runs(p) && SizesOk(run[k]) && p < |run[k].pc|
    requires run[k].pc[p] == Readying(np)
    ensures var s, s' := run[k], run[k + 1];
            && SizesOk(s') && |s'.pc| == |s.pc| && np < |s.pc| && np != p
            && s'.run[np] == Runnable && s'.pc[np] == Fresh && s'.parent[np] == Some(p) && s'.pc[p] == Running
            && s'.maker[np] == None && forall x: nat | x < |s.pc| && x != np :: SlotKept(s, s', x)
  {
    RunKin(run, steps, n, k);
    assert StepAt(run, steps, k) && KinOk(run[k], p) && ProcOk(run[k], p);
  }

  /** exit that has done with reparenting has no child left, and once it is a zombie it waits for its parent. */
  lemma ExitGivesAway(run: seq<State>, steps: seq<Step>, n: nat, k: nat, p: nat, x: nat)
    requires IsRun(run, steps, n) && k < |run| && SizesOk(run[k]) && p < |run[k].pc| && x < |run[k].pc|
    requires run[k].pc[p].ParentWake? || run[k].pc[p].ParentWakeAt? || run[k].pc[p].ExitLock? || run[k].pc[p].Zombify?
             || run[k].run[p] == Zombie
    ensures run[k].parent[x] != Some(p)
  {
    RunInv(run, steps, n, k);
    assert ProcOk(run[k], p) && PairOk(run[k], p, x);
  }

  /** kill may come whenever a process's lock is free. It marks the process and wakes it where it sleeps; it moves nobody,
      and leaves every other slot alone. */
  lemma KillMarks(run: seq<State>, steps: seq<Step>, n: nat, k: nat, p: nat)
    requires IsRun(run, steps, n) && k < |steps| && steps[k] == Elsewhere(Kill(p)) && SizesOk(run[k]) && p < |run[k].pc|
    ensures var s, s' := run[k], run[k + 1];
            && SizesOk(s') && s'.pc == s.pc && s'.wl == s.wl && s'.plock == s.plock && s'.parent == s.parent
            && s'.killed[p] && s'.run[p] == (if s.run[p] == Sleeping then Runnable else s.run[p])
            && forall x: nat | x < |s.pc| && x != p :: SlotKept(s, s', x)
  {
    assert StepAt(run, steps, k);
  }

  lemma MarksKept(s: State, q: nat, p: nat)
    requires Inv(s) && q < |s.pc| && p < |s.pc| && CanAct(s, q) && !s.pc[q].ScanAt?
    ensures |Act(s, q).pc| == |s.pc| && Act(s, q).killed == s.killed
    ensures s.killed[p] && Act(s, q).pc[p] == Falling ==> s.pc[p] == Falling
  {
  }

  lemma ElseMarks(s: State, o: Other, p: nat)
    requires Inv(s) && CanOther(s, o) && p < |s.pc|
    ensures |Else(s, o).pc| == |s.pc| && (s.killed[p] ==> Else(s, o).killed[p])
    ensures Else(s, o).pc[p] == Falling ==> s.pc[p] == Falling
  {
  }

  /** The mark stays until wait frees the slot, and a process that has it never goes to sleep in wait any more: it is past
      the test, or it will return from it. */
  lemma KilledStays(run: seq<State>, steps: seq<Step>, n: nat, k: nat, p: nat)
    requires IsRun(run, steps, n) && k < |steps| && SizesOk(run[k]) && p < |run[k].pc| && run[k].killed[p]
    ensures var s, s' := run[k], run[k + 1];
            && SizesOk(s') && |s'.pc| == |s.pc| && (s'.killed[p] || (s.run[p] == Zombie && s'.run[p] == Unused))
            && (s'.pc[p] == Falling ==> s.pc[p] == Falling)
  {
    RunInv(run, steps, n, k);
    assert StepAt(run, steps, k);
    match steps[k]
    case Runs(q) =>
      if run[k].pc[q].ScanAt? {
        assert ProcOk(run[k], q);
      } else {
        MarksKept(run[k], q, p);
      }
    case Elsewhere(o) => ElseMarks(run[k], o, p);
  }

  /** Every step that a process takes in fork, exit or wait brings it nearer to the end, but for one: woken, it looks at
      its children again. So each call takes a bounded number of its own steps between one wakeup and the next. */
  lemma StepsForward(run: seq<State>, steps: seq<Step>, n: nat, k: nat, p: nat)
    requires IsRun(run, steps, n) && k < |steps| && steps[k] == Runs(p) && SizesOk(run[k]) && p < |run[k].pc|
    ensures |run[k + 1].pc| == |run[k].pc|
    ensures var slots, c, c' := |run[k].pc|, run[k].pc[p], run[k + 1].pc[p];
            if c == Woken then c' == WaitWant else Less(RankOf(c', slots), RankOf(c, slots))
  {
    RunKin(run, steps, n, k);
    assert StepAt(run, steps, k);
    ActForward(run[k], p);
  }

  // ---------------------------------------------------------------- no deadlock

  /** In the midst of fork, exit or wait, and not asleep for want of an exited child. */
  predicate Busy(s: State, p: nat)
    requires SizesOk(s) && p < |s.pc|
  {
    var c := s.pc[p];
    && !c.Absent? && !c.Embryo? && !c.Running? && !c.Dead? && !(c.Asleep? && s.run[p] == Sleeping)
  }

  /** Process p is busy, and it or the scheduler on its behalf can go on. */
  predicate Moves(s: State, p: nat)
    requires SizesOk(s)
  {
    p < |s.pc| && Busy(s, p) && (CanAct(s, p) || CanOther(s, Release(p)) || CanOther(s, Pick(p)))
  }

  ghost predicate SomeoneMoves(s: State)
    requires SizesOk(s)
  {
    exists q: nat :: Moves(s, q)
  }

  lemma PlockMoves(s: State, q: nat)
    requires Inv(s) && q < |s.pc| && s.plock[q].Some?
    ensures Moves(s, s.plock[q].value)
  {
    assert PlockOk(s, q) && ProcOk(s, s.plock[q].value);
  }

  /** The process whose lock a process in state c is about to take. */
  function Wanted(c: Pc, p: nat): (j: Option<nat>) {
    match c
    case InitWake(_, j) => Some(j)
    case ParentWake(j) => Some(j)
    case Scan(i, _) => Some(i)
    case Readying(np) => Some(np)
    case _ => Some(p)
  }

  /** A busy process that finds wait_lock free, or has it, goes on unless a process's lock is in its way. */
  lemma BusyMoves(s: State, p: nat)
    requires Inv(s) && Kin(s) && p < |s.pc| && Busy(s, p) && (s.wl == None || s.wl == Some(p))
    ensures SomeoneMoves(s)
  {
    assert ProcOk(s, p) && KinOk(s, p);
    var j := Wanted(s.pc[p], p).value;
    if j < |s.pc| && s.plock[j].Some? {
      PlockMoves(s, j);
    } else {
      assert Moves(s, p);
    }
  }

  /** As long as any process is in the midst of fork, exit or wait, and not asleep for want of an exited child, one that
      is can go on: they never all wait. */
  lemma NoDeadlock(run: seq<State>, steps: seq<Step>, n: nat, k: nat, p: nat)
    requires IsRun(run, steps, n) && k < |run| && SizesOk(run[k]) && p < |run[k].pc| && Busy(run[k], p)
    ensures SomeoneMoves(run[k])
  {
    RunKin(run, steps, n, k);
    var s := run[k];
    if s.wl.Some? {
      assert ProcOk(s, s.wl.value);
      BusyMoves(s, s.wl.value);
    } else {
      BusyMoves(s, p);
    }
  }
}
