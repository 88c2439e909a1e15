/** The life of a process, from fork through exit to the wait that frees it (kernel/proc.c), can always be lived. */
module ExitCycle {
  import opened Options
  import opened ExitWait
  import opened ExitProgress
  import opened ExitBound
  import opened ExitReaps

  /** A process elsewhere moves x only by making it runnable or by freeing it. */
  lemma OtherPc(s: State, p: nat, x: nat)
    requires Inv(s) && Kin(s) && p < |s.pc| && x < |s.pc| && x != p && CanAct(s, p)
    ensures |Act(s, p).pc| == |s.pc|
    ensures || Act(s, p).pc[x] == s.pc[x] || (s.pc[p] == Readying(x) && Act(s, p).pc[x] == Fresh && s.pc[x] == Embryo)
            || (s.pc[p] == ScanAt(x) && s.run[x] == Zombie)
  {
    if x != Touched(s.pc[p], p) {
      OthersAlike(s, p, x);
    } else if s.pc[p].Readying? {
      assert ProcOk(s, p);
    }
  }

  lemma MakerBusy(s: State, x: nat)
    requires Inv(s) && x < |s.pc| && s.pc[x].Embryo?
    ensures exists m: nat :: m < |s.pc| && Busy(s, m)
  {
    assert ProcOk(s, x);
    assert Busy(s, s.maker[x].value);
  }

  /** From fork's taking of the slot to running. */
  predicate Growing(c: Pc) { c.Embryo? || c.Fresh? || c.Forkret? || c.Running? }

  lemma StaysGrowing(run: seq<State>, steps: seq<Step>, n: nat, k: nat, x: nat)
    requires IsRun(run, steps, n) && k < |steps| && Quiet(steps[k]) && SizesOk(run[k]) && x < |run[k].pc|
    requires Growing(run[k].pc[x])
    ensures SizesOk(run[k + 1]) && |run[k + 1].pc| == |run[k].pc| && Growing(run[k + 1].pc[x])
  {
    RunKin(run, steps, n, k);
    assert StepAt(run, steps, k) && ProcOk(run[k], x);
    if steps[k].Runs? && steps[k].p != x { OtherPc(run[k], steps[k].p, x); }
  }

  lemma {:induction false} GrowsUp(run: seq<State>, steps: seq<Step>, n: nat, from: nat, to: nat, x: nat)
    requires IsRun(run, steps, n) && from <= to < |run| && QuietFrom(steps, from)
    requires SizesOk(run[from]) && x < |run[from].pc| && Growing(run[from].pc[x])
    ensures SizesOk(run[to]) && |run[to].pc| == |run[from].pc| && Growing(run[to].pc[x])
  {
    if from < to {
      GrowsUp(run, steps, n, from, to - 1, x);
      StaysGrowing(run, steps, n, to - 1, x);
    }
  }

  /** From the call of exit to becoming a zombie. */
  predicate Going(c: Pc) {
    || c.ExitWant? || c.Reparent? || c.InitWake? || c.InitWakeAt? || c.ParentWake? || c.ParentWakeAt? || c.ExitLock?
    || c.Zombify?
  }

  lemma GoesOn(s: State, x: nat)
    requires SizesOk(s) && x < |s.pc| && CanAct(s, x) && Going(s.pc[x])
    ensures |Act(s, x).pc| == |s.pc| && (Going(Act(s, x).pc[x]) || Act(s, x).exits[x] > s.exits[x])
  {
  }

  lemma StaysGoing(run: seq<State>, steps: seq<Step>, n: nat, k: nat, x: nat)
    requires IsRun(run, steps, n) && k < |steps| && Quiet(steps[k]) && SizesOk(run[k]) && x < |run[k].pc|
    requires Going(run[k].pc[x])
    ensures SizesOk(run[k + 1]) && |run[k + 1].pc| == |run[k].pc|
    ensures Going(run[k + 1].pc[x]) || run[k + 1].exits[x] > run[k].exits[x]
  {
    RunKin(run, steps, n, k);
    assert StepAt(run, steps, k) && ProcOk(run[k], x);
    if steps[k] == Runs(x) {
      GoesOn(run[k], x);
    } else if steps[k].Runs? {
      OtherPc(run[k], steps[k].p, x);
    }
  }

  lemma {:induction false} GoesThrough(run: seq<State>, steps: seq<Step>, n: nat, from: nat, to: nat, x: nat)
    requires IsRun(run, steps, n) && from <= to < |run| && QuietFrom(steps, from)
    requires SizesOk(run[from]) && x < |run[from].pc| && Going(run[from].pc[x])
    ensures SizesOk(run[to]) && |run[to].pc| == |run[from].pc|
    ensures Going(run[to].pc[x]) || run[to].exits[x] > run[from].exits[x]
  {
    if from < to {
      GoesThrough(run, steps, n, from, to - 1, x);
      CountsGrown(run, steps, n, from, to - 1, x);
      CountsGrown(run, steps, n, to - 1, to, x);
      if Going(run[to - 1].pc[x]) { StaysGoing(run, steps, n, to - 1, x); }
    }
  }

  /** A process can always fork into an unused slot whose lock is free, and what it forks comes to run. */
  lemma Forks(run: seq<State>, steps: seq<Step>, n: nat, p: nat, np: nat) returns (run': seq<State>, steps': seq<Step>)
    requires IsRun(run, steps, n) && Inv(run[|steps|]) && p < |run[|steps|].pc| && np < |run[|steps|].pc|
    requires run[|steps|].pc[p] == Running && run[|steps|].run[np] == Unused && run[|steps|].plock[np] == None
    ensures IsRun(run', steps', n) && Extends(run, steps, run', steps') && Inv(run'[|steps'|])
    ensures |run'[|steps'|].pc| == |run[|steps|].pc| && run'[|steps'|].pc[np] == Running
  {
    var s := run[|steps|];
    assert ProcOk(s, p);
    var s1 := Else(s, Other.Forks(p, np));
    Extend(run, steps, n, Elsewhere(Other.Forks(p, np)), s1);
    var run1, steps1 := run + [s1], steps + [Elsewhere(Other.Forks(p, np))];
    RunInv(run1, steps1, n, |steps1|);
    run', steps' := AllSettle(run1, steps1, n);
    ExtendsTrans(run, steps, run1, steps1, run', steps');
    assert run'[|steps1|] == run'[..|run1|][|steps1|];
    GrowsUp(run', steps', n, |steps1|, |steps'|, np);
    var s' := run'[|steps'|];
    assert !Busy(s', np);
    if s'.pc[np].Embryo? { MakerBusy(s', np); }
  }

  /** A running process but init can always exit, and comes to be a zombie, which its parent may have freed already. */
  lemma Exits(run: seq<State>, steps: seq<Step>, n: nat, x: nat) returns (run': seq<State>, steps': seq<Step>)
    requires IsRun(run, steps, n) && Inv(run[|steps|]) && 0 < x < |run[|steps|].pc| && run[|steps|].pc[x] == Running
    ensures IsRun(run', steps', n) && Extends(run, steps, run', steps') && Inv(run'[|steps'|])
    ensures |run'[|steps'|].pc| == |run[|steps|].pc| && run'[|steps'|].exits[x] > run[|steps|].exits[x]
  {
    var s := run[|steps|];
    var s1 := Else(s, Other.Exits(x));
    Extend(run, steps, n, Elsewhere(Other.Exits(x)), s1);
    var run1, steps1 := run + [s1], steps + [Elsewhere(Other.Exits(x))];
    RunInv(run1, steps1, n, |steps1|);
    run', steps' := AllSettle(run1, steps1, n);
    ExtendsTrans(run, steps, run1, steps1, run', steps');
    assert run'[|steps1|] == run'[..|run1|][|steps1|];
    GoesThrough(run', steps', n, |steps1|, |steps'|, x);
    assert !Busy(run'[|steps'|], x);
  }

  /** From wherever a run has got to, a running process can fork into any unused slot whose lock is free; the child can
      run, exit, and be freed by wait. */
  lemma LifeCanBeLived(run: seq<State>, steps: seq<Step>, n: nat, p: nat, np: nat)
    returns (run': seq<State>, steps': seq<Step>)
    requires IsRun(run, steps, n) && SizesOk(run[|steps|]) && p < |run[|steps|].pc| && np < |run[|steps|].pc|
    requires run[|steps|].pc[p] == Running && run[|steps|].run[np] == Unused && run[|steps|].plock[np] == None
    ensures IsRun(run', steps', n) && Extends(run, steps, run', steps') && SizesOk(run'[|steps'|])
    ensures |run'[|steps'|].pc| == |run[|steps|].pc| && run'[|steps'|].exits[np] > run[|steps|].exits[np]
    ensures run'[|steps'|].frees[np] > run[|steps|].frees[np]
  {
    RunInv(run, steps, n, |steps|);
    FreedOnce(run, steps, n, |steps|, np);
    assert ProcOk(run[|steps|], np);
    var run1, steps1 := Forks(run, steps, n, p, np);
    assert run1[|steps|] == run1[..|run|][|steps|];
    CountsGrown(run1, steps1, n, |steps|, |steps1|, np);
    var run2, steps2 := Exits(run1, steps1, n, np);
    ExtendsTrans(run, steps, run1, steps1, run2, steps2);
    FreedOnce(run2, steps2, n, |steps2|, np);
    run', steps' := run2, steps2;
    if run2[|steps2|].run[np] == Zombie {
      run', steps' := EveryZombieFreed(run2, steps2, n, np);
      ExtendsTrans(run, steps, run2, steps2, run', steps');
      assert run'[|steps2|] == run'[..|run2|][|steps2|];
      CountsGrown(run', steps', n, |steps2|, |steps'|, np);
    }
  }
}
