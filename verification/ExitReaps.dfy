/** Whatever fork, exit and wait have begun can be brought to rest, and every exited process can then be freed
    (kernel/proc.c). */
module ExitReaps {
  import opened Options
  import opened ExitWait
  import opened ExitProgress
  import opened ExitBound

  // ---------------------------------------------------------------- coming to rest

  /** run' goes on from where run ends. */
  predicate Extends(run: seq<State>, steps: seq<Step>, run': seq<State>, steps': seq<Step>) {
    |run| <= |run'| && |steps| <= |steps'| && run'[..|run|] == run && steps'[..|steps|] == steps
  }

  lemma ExtendsTrans(run: seq<State>, steps: seq<Step>, run1: seq<State>, steps1: seq<Step>, run2: seq<State>,
                     steps2: seq<Step>)
    requires Extends(run, steps, run1, steps1) && Extends(run1, steps1, run2, steps2)
    ensures Extends(run, steps, run2, steps2)
  {
    assert run2[..|run|] == run2[..|run1|][..|run|] && steps2[..|steps|] == steps2[..|steps1|][..|steps|];
  }

  /** The run and a step more. */
  lemma Extend(run: seq<State>, steps: seq<Step>, n: nat, t: Step, s': State)
    requires IsRun(run, steps, n) && SizesOk(run[|steps|])
    requires match t
             case Runs(p) => p < |run[|steps|].pc| && CanAct(run[|steps|], p) && s' == Act(run[|steps|], p)
             case Elsewhere(o) => CanOther(run[|steps|], o) && s' == Else(run[|steps|], o)
    ensures IsRun(run + [s'], steps + [t], n) && Extends(run, steps, run + [s'], steps + [t])
  {
    var run', steps' := run + [s'], steps + [t];
    forall k: nat | k < |steps'| ensures StepAt(run', steps', k) {
      if k < |steps| { assert StepAt(run, steps, k); }
    }
  }

  /** A step of what has been begun, or of the scheduler: nothing is begun by it. */
  predicate Quiet(t: Step) { t.Runs? || t.o.Release? || t.o.Pick? }

  predicate QuietFrom(steps: seq<Step>, from: nat) { forall k | from <= k < |steps| :: Quiet(steps[k]) }

  /** As long as someone is busy there is a step that does some of the work. */
  lemma SomeWork(run: seq<State>, steps: seq<Step>, n: nat, p: nat) returns (run': seq<State>, steps': seq<Step>)
    requires IsRun(run, steps, n) && Inv(run[|steps|]) && p < |run[|steps|].pc| && Busy(run[|steps|], p)
    ensures IsRun(run', steps', n) && Extends(run, steps, run', steps') && |steps'| == |steps| + 1
            && Quiet(steps'[|steps|])
    ensures Inv(run'[|steps'|]) && Work(run'[|steps'|]) < Work(run[|steps|])
  {
    var s := run[|steps|];
    NoDeadlock(run, steps, n, |steps|, p);
    var q: nat :| Moves(s, q);
    RunKin(run, steps, n, |steps|);
    var t := if CanAct(s, q) then Runs(q) else if CanOther(s, Release(q)) then Elsewhere(Release(q)) else Elsewhere(Pick(q));
    var s' := if t.Runs? then Act(s, q) else Else(s, t.o);
    if t.Runs? { ActWorks(s, q); } else { ElseWorks(s, t.o); }
    Extend(run, steps, n, t, s');
    run', steps' := run + [s'], steps + [t];
    RunInv(run', steps', n, |steps'|);
  }

  /** Nobody is in the midst of fork, exit or wait, except asleep for want of an exited child. */
  ghost predicate Settled(s: State)
    requires SizesOk(s)
  {
    forall p: nat | p < |s.pc| :: !Busy(s, p)
  }

  lemma HoldersBusy(s: State, q: nat)
    requires Inv(s) && q < |s.pc|
    ensures s.wl.Some? ==> Busy(s, s.wl.value)
    ensures s.plock[q].Some? ==> s.plock[q].value < |s.pc| && Busy(s, s.plock[q].value)
  {
    assert s.wl.Some? ==> ProcOk(s, s.wl.value);
    if s.plock[q].Some? { PlockMoves(s, q); }
  }

  /** Nobody then has any of the locks. */
  lemma SettledFree(s: State, q: nat)
    requires Inv(s) && Settled(s) && q < |s.pc|
    ensures s.wl == None && s.plock[q] == None
  {
    HoldersBusy(s, q);
  }

  /** From wherever a run has got to, it can be brought to rest without another call being made. */
  lemma {:induction false} AllSettle(run: seq<State>, steps: seq<Step>, n: nat)
    returns (run': seq<State>, steps': seq<Step>)
    requires IsRun(run, steps, n) && Inv(run[|steps|])
    ensures IsRun(run', steps', n) && Extends(run, steps, run', steps') && QuietFrom(steps', |steps|)
    ensures Inv(run'[|steps'|]) && Settled(run'[|steps'|])
    decreases Work(run[|steps|])
  {
    var s := run[|steps|];
    if p: nat :| p < |s.pc| && Busy(s, p) {
      var run1, steps1 := SomeWork(run, steps, n, p);
      run', steps' := AllSettle(run1, steps1, n);
      assert steps'[|steps|] == steps'[..|steps1|][|steps|];
      ExtendsTrans(run, steps, run1, steps1, run', steps');
    } else {
      run', steps' := run, steps;
    }
  }

  // ---------------------------------------------------------------- parents

  /** Every process but init has a parent, from when it becomes runnable until it is freed. */
  predicate HasParents(s: State)
    requires SizesOk(s)
  {
    forall x | 0 < x < |s.pc| && !s.pc[x].Absent? && !s.pc[x].Embryo? :: s.parent[x].Some?
  }

  lemma ReapParents(s: State, p: nat)
    requires Inv(s) && Kin(s) && HasParents(s) && p < |s.pc| && CanAct(s, p) && s.pc[p].ScanAt?
    ensures HasParents(Act(s, p))
  {
    assert ProcOk(s, p);
  }

  lemma LinkParents(s: State, p: nat)
    requires Inv(s) && Kin(s) && HasParents(s) && p < |s.pc| && CanAct(s, p)
    requires s.pc[p].Readying? || s.pc[p].Linking? || s.pc[p].Reparent?
    ensures HasParents(Act(s, p))
  {
    assert ProcOk(s, p) && KinOk(s, p);
  }

  lemma ActParents(s: State, p: nat)
    requires Inv(s) && Kin(s) && HasParents(s) && p < |s.pc| && CanAct(s, p)
    ensures HasParents(Act(s, p))
  {
    if s.pc[p].ScanAt? {
      ReapParents(s, p);
    } else if s.pc[p].Readying? || s.pc[p].Linking? || s.pc[p].Reparent? {
      LinkParents(s, p);
    } else {
      var s' := Act(s, p);
      forall x: nat | x < |s.pc| && x != p ensures s'.pc[x] == s.pc[x] && s'.parent == s.parent { ParentsKept(s, p, x); }
      ActorParent(s, p);
    }
  }

  lemma ActorParent(s: State, p: nat)
    requires SizesOk(s) && p < |s.pc| && CanAct(s, p)
    requires !s.pc[p].Linking? && !s.pc[p].Readying? && !s.pc[p].Reparent? && !s.pc[p].ScanAt?
    ensures |Act(s, p).pc| == |s.pc| && Act(s, p).parent == s.parent && !s.pc[p].Absent? && !s.pc[p].Embryo?
  {
  }

  lemma ElseParents(s: State, o: Other)
    requires Inv(s) && HasParents(s) && CanOther(s, o)
    ensures HasParents(Else(s, o))
  {
    assert ProcOk(s, o.p);
  }

  lemma {:induction false} RunParents(run: seq<State>, steps: seq<Step>, n: nat, k: nat)
    requires IsRun(run, steps, n) && k < |run|
    ensures Inv(run[k]) && HasParents(run[k])
  {
    RunKin(run, steps, n, k);
    if k > 0 {
      RunParents(run, steps, n, k - 1);
      RunKin(run, steps, n, k - 1);
      assert StepAt(run, steps, k - 1);
      match steps[k - 1]
      case Runs(p) => ActParents(run[k - 1], p);
      case Elsewhere(o) => ElseParents(run[k - 1], o);
    }
  }

  /** At rest, the parent of an exited process is neither in wait nor gone. */
  lemma ParentReady(run: seq<State>, steps: seq<Step>, n: nat, x: nat) returns (w: nat)
    requires IsRun(run, steps, n) && Inv(run[|steps|]) && Settled(run[|steps|])
    requires x < |run[|steps|].pc| && run[|steps|].run[x] == Zombie
    ensures w < |run[|steps|].pc| && run[|steps|].parent[x] == Some(w) && run[|steps|].pc[w] == Running
  {
    var s := run[|steps|];
    RunParents(run, steps, n, |steps|);
    assert ProcOk(s, x);
    w := s.parent[x].value;
    assert PairOk(s, w, x) && !Busy(s, w);
    SettledFree(s, x);
  }

  // ---------------------------------------------------------------- wait, by itself

  /** Process w is in wait, about to look at slot i, and has nothing in its way. */
  predicate Looking(s: State, w: nat, i: nat)
    requires SizesOk(s)
  {
    w < |s.pc| && s.pc[w].Scan? && s.pc[w].i == i && forall q | 0 <= q < |s.pc| :: s.plock[q] == None
  }

  lemma LooksElsewhere(run: seq<State>, steps: seq<Step>, n: nat, w: nat, i: nat)
    returns (run': seq<State>, steps': seq<Step>)
    requires IsRun(run, steps, n) && Inv(run[|steps|]) && Looking(run[|steps|], w, i) && i < |run[|steps|].pc|
    requires run[|steps|].parent[i] != Some(w)
    ensures IsRun(run', steps', n) && Extends(run, steps, run', steps')
    ensures var s, s' := run[|steps|], run'[|steps'|];
            Inv(s') && Looking(s', w, i + 1) && s' == s.(pc := s.pc[w := s'.pc[w]])
  {
    var s' := Act(run[|steps|], w);
    Extend(run, steps, n, Runs(w), s');
    run', steps' := run + [s'], steps + [Runs(w)];
    RunInv(run', steps', n, |steps'|);
  }

  /** What the two steps at a child come to. */
  lemma TwoSteps(s: State, w: nat, i: nat) returns (s1: State, s2: State)
    requires Inv(s) && Looking(s, w, i) && i < |s.pc| && s.parent[i] == Some(w)
    ensures CanAct(s, w) && s1 == Act(s, w) && |s1.pc| == |s.pc| && CanAct(s1, w) && s2 == Act(s1, w) && i != w
    ensures if s.run[i] == Zombie then s2 == Reap(s, w, i)
            else |s2.pc| == |s.pc| && Looking(s2, w, i + 1) && s2 == s.(pc := s.pc[w := s2.pc[w]])
  {
    assert PairOk(s, w, i);
    s1 := Act(s, w);
    assert s1 == s.(pc := s.pc[w := ScanAt(i)], plock := s.plock[i := Some(w)]);
    s2 := Act(s1, w);
    assert s1.plock[i := None] == s.plock;
    if s.run[i] == Zombie {
      assert s1.pc[i := Absent][w := Running] == s.pc[i := Absent][w := Running];
    } else {
      assert s1.pc[w := Scan(i + 1, true)] == s.pc[w := Scan(i + 1, true)];
    }
  }

  lemma LooksAt(run: seq<State>, steps: seq<Step>, n: nat, w: nat, i: nat)
    returns (run': seq<State>, steps': seq<Step>)
    requires IsRun(run, steps, n) && Inv(run[|steps|]) && Looking(run[|steps|], w, i) && i < |run[|steps|].pc|
    requires run[|steps|].parent[i] == Some(w)
    ensures IsRun(run', steps', n) && Extends(run, steps, run', steps') && i != w
    ensures var s, s' := run[|steps|], run'[|steps'|];
            if s.run[i] == Zombie then s' == Reap(s, w, i)
            else Inv(s') && Looking(s', w, i + 1) && s' == s.(pc := s.pc[w := s'.pc[w]])
  {
    var s1, s2 := TwoSteps(run[|steps|], w, i);
    Extend(run, steps, n, Runs(w), s1);
    var run1, steps1 := run + [s1], steps + [Runs(w)];
    Extend(run1, steps1, n, Runs(w), s2);
    run', steps' := run1 + [s2], steps1 + [Runs(w)];
    ExtendsTrans(run, steps, run1, steps1, run', steps');
    RunInv(run', steps', n, |steps'|);
  }

  lemma ReapAgain(s: State, s1: State, w: nat, y: nat)
    requires SizesOk(s) && SizesOk(s1) && w < |s.pc| == |s1.pc| && y < |s.pc| && y != w
    requires s1 == s.(pc := s.pc[w := s1.pc[w]])
    ensures Reap(s1, w, y) == Reap(s, w, y)
  {
    assert s.pc[w := s1.pc[w]][y := Absent][w := Running] == s.pc[y := Absent][w := Running];
  }

  /** It comes to an exited child y, up to the one it has in slot x, and frees that. */
  lemma {:induction false} LooksUntil(run: seq<State>, steps: seq<Step>, n: nat, w: nat, i: nat, x: nat)
    returns (run': seq<State>, steps': seq<Step>, y: nat)
    requires IsRun(run, steps, n) && Inv(run[|steps|]) && Looking(run[|steps|], w, i) && i <= x < |run[|steps|].pc|
    requires run[|steps|].parent[x] == Some(w) && run[|steps|].run[x] == Zombie
    ensures IsRun(run', steps', n) && Extends(run, steps, run', steps')
    ensures var s := run[|steps|];
            y < |s.pc| && y != w && s.parent[y] == Some(w) && s.run[y] == Zombie && run'[|steps'|] == Reap(s, w, y)
    decreases x - i
  {
    var s := run[|steps|];
    var run1, steps1;
    if s.parent[i] == Some(w) {
      run1, steps1 := LooksAt(run, steps, n, w, i);
      if s.run[i] == Zombie { return run1, steps1, i; }
    } else {
      run1, steps1 := LooksElsewhere(run, steps, n, w, i);
    }
    run', steps', y := LooksUntil(run1, steps1, n, w, i + 1, x);
    ExtendsTrans(run, steps, run1, steps1, run', steps');
    ReapAgain(s, run1[|steps1|], w, y);
  }

  /** A call of wait, at rest, by the parent of an exited process: it frees an exited child and all is at rest again. */
  lemma WaitFrees(run: seq<State>, steps: seq<Step>, n: nat, w: nat, x: nat)
    returns (run': seq<State>, steps': seq<Step>, y: nat)
    requires IsRun(run, steps, n) && Inv(run[|steps|]) && Settled(run[|steps|]) && w < |run[|steps|].pc|
    requires run[|steps|].pc[w] == Running && x < |run[|steps|].pc|
    requires run[|steps|].parent[x] == Some(w) && run[|steps|].run[x] == Zombie
    ensures IsRun(run', steps', n) && Extends(run, steps, run', steps') && Inv(run'[|steps'|])
            && Settled(run'[|steps'|])
    ensures var s := run[|steps|];
            && y < |s.pc| && s.parent[y] == Some(w) && s.run[y] == Zombie && y != w
            && run'[|steps'|] == s.(run := s.run[y := Unused], parent := s.parent[y := None], chan := s.chan[y := None],
                                    killed := s.killed[y := false], frees := s.frees[y := s.frees[y] + 1],
                                    pc := s.pc[y := Absent])
  {
    var s := run[|steps|];
    forall q: nat | q < |s.pc| ensures s.plock[q] == None { SettledFree(s, q); }
    SettledFree(s, w);
    var s1 := Else(s, Waits(w));
    Extend(run, steps, n, Elsewhere(Waits(w)), s1);
    var run1, steps1 := run + [s1], steps + [Elsewhere(Waits(w))];
    var s2 := Act(s1, w);
    Extend(run1, steps1, n, Runs(w), s2);
    var run2, steps2 := run1 + [s2], steps1 + [Runs(w)];
    ExtendsTrans(run, steps, run1, steps1, run2, steps2);
    RunInv(run2, steps2, n, |steps2|);
    run', steps', y := LooksUntil(run2, steps2, n, w, 0, x);
    ExtendsTrans(run, steps, run2, steps2, run', steps');
    RunInv(run', steps', n, |steps'|);
    Returned(s, s2, w, y);
    forall q: nat | q < |s.pc| ensures !Busy(run'[|steps'|], q) { assert !Busy(s, q); }
  }

  lemma Returned(s: State, s2: State, w: nat, y: nat)
    requires SizesOk(s) && SizesOk(s2) && w < |s.pc| && y < |s.pc| && y != w && s.pc[w] == Running && s.wl == None
    requires |s2.pc| == |s.pc| && s2 == s.(pc := s.pc[w := s2.pc[w]], wl := s2.wl) && s.plock[y] == None
    ensures Reap(s2, w, y) == s.(run := s.run[y := Unused], parent := s.parent[y := None], chan := s.chan[y := None],
                                 killed := s.killed[y := false], frees := s.frees[y := s.frees[y] + 1],
                                 pc := s.pc[y := Absent])
  {
    assert s.pc[w := s2.pc[w]][y := Absent][w := Running] == s.pc[y := Absent];
    assert s.plock[y := None] == s.plock;
  }

  function Zombies(s: State): (z: set<nat>)
    requires SizesOk(s)
  {
    set x: nat | x < |s.run| && s.run[x] == Zombie
  }

  /** From a state at rest, the exited process in slot x can be freed, its parent calling wait often enough. */
  lemma {:induction false} FreesIt(run: seq<State>, steps: seq<Step>, n: nat, w: nat, x: nat)
    returns (run': seq<State>, steps': seq<Step>)
    requires IsRun(run, steps, n) && Inv(run[|steps|]) && Settled(run[|steps|]) && w < |run[|steps|].pc|
    requires run[|steps|].pc[w] == Running && x < |run[|steps|].pc|
    requires run[|steps|].parent[x] == Some(w) && run[|steps|].run[x] == Zombie
    ensures IsRun(run', steps', n) && Extends(run, steps, run', steps') && Inv(run'[|steps'|])
    ensures |run'[|steps'|].pc| == |run[|steps|].pc| && run'[|steps'|].run[x] == Unused
    ensures run'[|steps'|].frees[x] == run[|steps|].frees[x] + 1
    decreases Zombies(run[|steps|])
  {
    var y;
    run', steps', y := WaitFrees(run, steps, n, w, x);
    if y != x {
      var run1, steps1 := run', steps';
      assert Zombies(run1[|steps1|]) == Zombies(run[|steps|]) - {y};
      run', steps' := FreesIt(run1, steps1, n, w, x);
      ExtendsTrans(run, steps, run1, steps1, run', steps');
    }
  }

  // ---------------------------------------------------------------- every exited process can be freed

  lemma CountsGrow(run: seq<State>, steps: seq<Step>, n: nat, k: nat, x: nat)
    requires IsRun(run, steps, n) && k < |steps| && Inv(run[k]) && Inv(run[k + 1]) && x < |run[k].pc|
    ensures |run[k + 1].pc| == |run[k].pc| && run[k + 1].frees[x] >= run[k].frees[x]
            && run[k + 1].exits[x] >= run[k].exits[x]
  {
    assert StepAt(run, steps, k);
  }

  lemma {:induction false} CountsGrown(run: seq<State>, steps: seq<Step>, n: nat, from: nat, to: nat, x: nat)
    requires IsRun(run, steps, n) && from <= to < |run| && SizesOk(run[from]) && x < |run[from].pc|
    ensures SizesOk(run[to]) && |run[to].pc| == |run[from].pc|
    ensures run[to].frees[x] >= run[from].frees[x] && run[to].exits[x] >= run[from].exits[x]
  {
    if from < to {
      CountsGrown(run, steps, n, from, to - 1, x);
      RunInv(run, steps, n, to - 1);
      RunInv(run, steps, n, to);
      CountsGrow(run, steps, n, to - 1, x);
    }
  }

  /** No exit goes for nothing: from wherever a run has got to, a process that has exited can be freed, whatever the others
      are at, by letting them finish and its parent call wait. */
  lemma EveryZombieFreed(run: seq<State>, steps: seq<Step>, n: nat, x: nat)
    returns (run': seq<State>, steps': seq<Step>)
    requires IsRun(run, steps, n) && SizesOk(run[|steps|]) && x < |run[|steps|].pc| && run[|steps|].run[x] == Zombie
    ensures IsRun(run', steps', n) && Extends(run, steps, run', steps') && SizesOk(run'[|steps'|])
    ensures x < |run'[|steps'|].pc| && run'[|steps'|].frees[x] > run[|steps|].frees[x]
  {
    RunInv(run, steps, n, |steps|);
    run', steps' := AllSettle(run, steps, n);
    assert run'[|steps|] == run'[..|run|][|steps|];
    CountsGrown(run', steps', n, |steps|, |steps'|, x);
    FreedOnce(run', steps', n, |steps|, x);
    FreedOnce(run', steps', n, |steps'|, x);
    if run'[|steps'|].run[x] == Zombie {
      var w := ParentReady(run', steps', n, x);
      var run1, steps1 := run', steps';
      run', steps' := FreesIt(run1, steps1, n, w, x);
      ExtendsTrans(run, steps, run1, steps1, run', steps');
    }
  }
}
