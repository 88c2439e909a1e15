/** What acquiresleep and releasesleep get done (kernel/sleeplock.c, kernel/proc.c): a free lock is taken, nobody waits for
    ever in a loop, and the processes that use the lock never all wait for one another. */
module SleepProgress {
  import opened Options
  import opened SleepLock

  // ---------------------------------------------------------------- the effect of a step

  /** A process that tests a free lock has it after that step, and lets go of the spinlock; nobody else changes. */
  lemma FreeLockTaken(run: seq<State>, steps: seq<Step>, k: nat, p: nat)
    requires IsRun(run, steps) && k < |steps| && steps[k] == Runs(p) && p < |run[k].pc|
    requires run[k].pc[p] == Test && !run[k].locked
    ensures |run[k + 1].pc| == |run[k].pc| && forall q | 0 <= q < |run[k].pc| && q != p :: run[k + 1].pc[q] == run[k].pc[q]
    ensures HoldsLock(run[k + 1].pc[p]) && run[k + 1].locked && run[k + 1].owner == Some(p) && run[k + 1].lk == None
    ensures run[k + 1].run == run[k].run && run[k + 1].chan == run[k].chan && run[k + 1].plock == run[k].plock
  {
    assert StepAt(run, steps, k);
  }

  /** A process that has the lock keeps it until releasesleep clears it, and then it is free. */
  lemma LockKept(run: seq<State>, steps: seq<Step>, k: nat, p: nat)
    requires IsRun(run, steps) && k < |steps| && p < |run[k].pc| && HoldsLock(run[k].pc[p])
    ensures p < |run[k + 1].pc|
    ensures if steps[k] == Runs(p) && run[k].pc[p] == Clearing then !run[k + 1].locked && run[k + 1].owner == None
            else HoldsLock(run[k + 1].pc[p])
  {
    RunInv(run, steps, k);
    assert StepAt(run, steps, k) && ProcOk(run[k], p);
  }

  /** wakeup makes a process runnable that it finds asleep on the lock. */
  lemma WakeupWakes(run: seq<State>, steps: seq<Step>, k: nat, t: nat, p: nat)
    requires IsRun(run, steps) && k < |steps| && steps[k] == Runs(t) && t < |run[k].pc| && p < |run[k].pc|
    requires run[k].pc[t] == WakingAt(p)
    ensures SizesOk(run[k]) && SizesOk(run[k + 1]) && p < |run[k + 1].pc|
    ensures NeedsWakeup(run[k], p) ==> run[k + 1].run[p] == Runnable
    ensures run[k + 1].plock[p] == None && !NeedsWakeup(run[k + 1], p)
  {
    RunInv(run, steps, k);
    assert StepAt(run, steps, k) && ProcOk(run[k], t) && ProcOk(run[k], p);
    ExaminedAsleep(run, steps, k, t, p);
  }

  // ---------------------------------------------------------------- every loop ends

  /** kill wakes a process that sleeps, and does nothing else: what it was waiting for it will test again. */
  lemma KillWakes(run: seq<State>, steps: seq<Step>, k: nat, p: nat)
    requires IsRun(run, steps) && k < |steps| && steps[k] == Elsewhere(Kill(p)) && SizesOk(run[k]) && p < |run[k].pc|
    ensures run[k + 1] == run[k].(run := run[k + 1].run) && SizesOk(run[k + 1])
    ensures run[k + 1].run[p] == if run[k].run[p] == Sleeping then Runnable else run[k].run[p]
    ensures forall x: nat | x < |run[k].pc| && x != p :: run[k + 1].run[x] == run[k].run[x]
  {
    assert StepAt(run, steps, k);
  }

  /** How far a process is from having the lock or from having given it back, among n processes. */
  function Rank(c: Pc, n: nat): (r: nat) {
    match c
    case Idle => 0
    case Done => 1
    case Waking(i) => if i <= n then 2 * (n - i) + 2 else 0
    case WakingAt(i) => if i < n then 2 * (n - i) + 1 else 0
    case Clearing => 2 * n + 3
    case Leaving => 2 * n + 4
    case Critical => 2 * n + 5
    case Woken => 2 * n + 6
    case Asleep => 2 * n + 7
    case Switched => 2 * n + 8
    case Setting => 2 * n + 9
    case Dropping => 2 * n + 10
    case Falling => 2 * n + 11
    case Test => 2 * n + 12
    case Want => 2 * n + 13
  }

  predicate LoopOk(s: State) {
    forall p | 0 <= p < |s.pc| && s.pc[p].Waking? :: s.pc[p].i <= |s.pc|
  }

  lemma {:induction false} RunLoopOk(run: seq<State>, steps: seq<Step>, k: nat)
    requires IsRun(run, steps) && k < |run|
    ensures LoopOk(run[k])
  {
    if k > 0 {
      RunLoopOk(run, steps, k - 1);
      assert StepAt(run, steps, k - 1);
    }
  }

  /** Every step of a process in acquiresleep or releasesleep brings it nearer to the end, but for one: woken, it tries
      again from the beginning. So releasesleep takes at most 2n + 4 of its own steps, and acquiresleep five between one
      wakeup and the next. No step of another process or of kill sends it back, and the scheduler too moves it on. */
  lemma StepsForward(run: seq<State>, steps: seq<Step>, k: nat, p: nat)
    requires IsRun(run, steps) && k < |steps| && p < |run[k].pc|
    ensures |run[k + 1].pc| == |run[k].pc|
    ensures var n, c, c' := |run[k].pc|, run[k].pc[p], run[k + 1].pc[p];
            if steps[k] == Runs(p) && c != Idle && c != Woken then Rank(c', n) < Rank(c, n)
            else if steps[k] == Runs(p) then c' == Want
            else if steps[k].Elsewhere? && steps[k].o.p == p && !steps[k].o.Kill? then Rank(c', n) == Rank(c, n) - 1
            else c' == c
  {
    RunLoopOk(run, steps, k);
    assert StepAt(run, steps, k);
  }

  // ---------------------------------------------------------------- no deadlock

  /** Process p is using the lock, and it or the scheduler on its behalf can go on. */
  predicate Moves(s: State, p: nat)
    requires SizesOk(s)
  {
    && p < |s.pc| && s.pc[p] != Idle
    && (CanAct(s, p) || CanOther(s, Release(p)) || CanOther(s, Pick(p)))
  }

  ghost predicate SomeoneMoves(s: State)
    requires SizesOk(s)
  {
    exists q: nat :: Moves(s, q)
  }

  /** Whoever holds a process's own lock can go on. */
  lemma PlockMoves(s: State, q: nat)
    requires Inv(s) && q < |s.pc| && s.plock[q].Some?
    ensures Moves(s, s.plock[q].value)
  {
    assert PlockOk(s, q) && ProcOk(s, s.plock[q].value);
  }

  /** Whoever holds the spinlock of the sleep lock can go on, or the one it waits for. */
  lemma LkMoves(s: State)
    requires Inv(s) && s.lk.Some?
    ensures SomeoneMoves(s)
  {
    var q := s.lk.value;
    assert ProcOk(s, q);
    if s.pc[q].Waking? && s.pc[q].i < |s.pc| && s.plock[s.pc[q].i].Some? {
      PlockMoves(s, s.pc[q].i);
    } else if s.plock[q].Some? {
      PlockMoves(s, q);
    } else {
      assert Moves(s, q);
    }
  }

  /** Whoever has the sleep lock can go on, or someone it waits for. */
  lemma OwnerMoves(s: State)
    requires Inv(s) && s.locked
    ensures SomeoneMoves(s)
  {
    var q := s.owner.value;
    assert ProcOk(s, q);
    if s.lk.Some? {
      LkMoves(s);
    } else {
      assert Moves(s, q);
    }
  }

  lemma UserMoves(s: State, p: nat)
    requires Inv(s) && p < |s.pc| && s.pc[p] != Idle
    ensures SomeoneMoves(s)
  {
    assert ProcOk(s, p);
    if s.lk.Some? {
      LkMoves(s);
    } else if s.plock[p].Some? {
      PlockMoves(s, p);
    } else if s.pc[p].Asleep? && s.run[p] == Sleeping {
      OwnerMoves(s);
    } else {
      assert Moves(s, p);
    }
  }

  /** As long as anyone is using the lock, a process that is using it can go on: they never all wait. */
  lemma NoDeadlock(run: seq<State>, steps: seq<Step>, k: nat, p: nat)
    requires IsRun(run, steps) && k < |run| && p < |run[k].pc| && run[k].pc[p] != Idle
    ensures SizesOk(run[k]) && SomeoneMoves(run[k])
  {
    RunInv(run, steps, k);
    UserMoves(run[k], p);
  }
}
