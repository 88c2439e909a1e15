/** How long acquiresleep and releasesleep can take altogether (kernel/sleeplock.c), and that they all come to an end. */
module SleepBound {
  import opened Options
  import opened Collections
  import opened SleepLock
  import opened SleepProgress

  // ---------------------------------------------------------------- the work there is to do

  /** The processes that wakeup has still to examine, until a process at c is done. */
  function Exams(c: Pc, n: nat): (k: nat) {
    match c
    case Idle | Done => 0
    case Waking(i) => if i <= n then n - i else 0
    case WakingAt(i) => if i <= n then n - i else 0
    case _ => n
  }

  /** Where a process at c is between two examinations. One that a wakeup or kill has made runnable has farthest to go. */
  function Level(c: Pc, r: RunState): (k: nat) {
    match c
    case Idle => 0
    case Done | WakingAt(_) => 1
    case Waking(_) => 2
    case Clearing => 3
    case Leaving => 4
    case Critical => 5
    case Asleep => if r == Sleeping then 1 else 9
    case Switched => 2
    case Setting => 3
    case Dropping => 4
    case Falling => 5
    case Test => 6
    case Want => 7
    case Woken => 8
  }

  function Weight(c: Pc, r: RunState, n: nat): (k: nat) { 10 * Exams(c, n) + Level(c, r) }

  function Weights(s: State): (ws: seq<nat>)
    requires SizesOk(s)
  {
    seq(|s.pc|, p requires 0 <= p < |s.pc| => Weight(s.pc[p], s.run[p], |s.pc|))
  }

  /** What all processes together have still to do. */
  function Work(s: State): (n: nat)
    requires SizesOk(s)
  {
    Sum(Weights(s))
  }

  // ---------------------------------------------------------------- each step does some of it

  function WeightOf(s: State, p: nat): (k: nat)
    requires SizesOk(s) && p < |s.pc|
  {
    Weight(s.pc[p], s.run[p], |s.pc|)
  }

  /** A step of one process that leaves the others where they are. */
  lemma OneChanges(s: State, s': State, p: nat)
    requires SizesOk(s) && SizesOk(s') && p < |s.pc| == |s'.pc|
    requires forall q | 0 <= q < |s.pc| && q != p :: s'.pc[q] == s.pc[q] && s'.run[q] == s.run[q]
    ensures Work(s') == Work(s) - WeightOf(s, p) + WeightOf(s', p)
  {
    assert Weights(s') == Weights(s)[p := WeightOf(s', p)];
    SumUpdate(Weights(s), p, WeightOf(s', p));
  }

  /** A step of one process that changes another. */
  lemma TwoChange(s: State, s': State, p: nat, i: nat)
    requires SizesOk(s) && SizesOk(s') && p < |s.pc| == |s'.pc| && i < |s.pc| && i != p
    requires forall q | 0 <= q < |s.pc| && q != p && q != i :: s'.pc[q] == s.pc[q] && s'.run[q] == s.run[q]
    ensures Work(s') == Work(s) - WeightOf(s, p) + WeightOf(s', p) - WeightOf(s, i) + WeightOf(s', i)
  {
    var ws1: seq<nat> := Weights(s)[p := WeightOf(s', p)];
    SumUpdate(Weights(s), p, WeightOf(s', p));
    SumUpdate(ws1, i, WeightOf(s', i));
    assert Weights(s') == ws1[i := WeightOf(s', i)];
  }

  /** A wakeup that examines another process. */
  lemma WakerWorks(s: State, p: nat)
    requires Inv(s) && p < |s.pc| && CanAct(s, p) && s.pc[p].WakingAt?
    ensures SizesOk(Act(s, p)) && Work(Act(s, p)) < Work(s)
  {
    assert ProcOk(s, p) && ProcOk(s, s.pc[p].i);
    TwoChange(s, Act(s, p), p, s.pc[p].i);
  }

  lemma OwnerMovesAlone(s: State, p: nat, q: nat)
    requires SizesOk(s) && p < |s.pc| && q < |s.pc| && q != p && CanAct(s, p) && !s.pc[p].WakingAt?
    ensures SizesOk(Act(s, p)) && |Act(s, p).pc| == |s.pc|
    ensures Act(s, p).pc[q] == s.pc[q] && Act(s, p).run[q] == s.run[q]
  {
  }

  /** The first step of acquiresleep brings the work of a whole call. */
  lemma OwnerLess(s: State, p: nat)
    requires Inv(s) && LoopOk(s) && p < |s.pc| && CanAct(s, p) && !s.pc[p].WakingAt?
    ensures SizesOk(Act(s, p)) && |Act(s, p).pc| == |s.pc|
    ensures if s.pc[p] == Idle then WeightOf(Act(s, p), p) == WeightOf(s, p) + 10 * |s.pc| + 7
            else WeightOf(Act(s, p), p) < WeightOf(s, p)
  {
    assert ProcOk(s, p);
  }

  /** Any other step of a process. */
  lemma OwnerWorks(s: State, p: nat)
    requires Inv(s) && LoopOk(s) && p < |s.pc| && CanAct(s, p) && !s.pc[p].WakingAt?
    ensures SizesOk(Act(s, p))
    ensures if s.pc[p] == Idle then Work(Act(s, p)) == Work(s) + 10 * |s.pc| + 7 else Work(Act(s, p)) < Work(s)
  {
    OwnerLess(s, p);
    var s' := Act(s, p);
    forall q | 0 <= q < |s.pc| && q != p ensures s'.pc[q] == s.pc[q] && s'.run[q] == s.run[q] {
      OwnerMovesAlone(s, p, q);
    }
    OneChanges(s, s', p);
  }

  /** The scheduler does some too; kill adds a new round for the process it wakes. */
  lemma OtherWorks(s: State, o: Other)
    requires Inv(s) && CanOther(s, o)
    ensures SizesOk(Else(s, o))
    ensures if o.Kill? then Work(Else(s, o)) <= Work(s) + 8 else Work(Else(s, o)) < Work(s)
  {
    assert ProcOk(s, o.p);
    OneChanges(s, Else(s, o), o.p);
  }

  /** Step k of a run begins a call of acquiresleep. */
  predicate Calls(run: seq<State>, steps: seq<Step>, k: nat)
    requires k < |run| && k < |steps|
  {
    steps[k].Runs? && steps[k].p < |run[k].pc| && run[k].pc[steps[k].p] == Idle
  }

  predicate Kills(step: Step) { step.Elsewhere? && step.o.Kill? }

  /** The calls, and the kills, among the first k steps. */
  function CallCount(run: seq<State>, steps: seq<Step>, k: nat): (n: nat)
    requires k < |run| && k <= |steps|
  {
    if k == 0 then 0 else CallCount(run, steps, k - 1) + if Calls(run, steps, k - 1) then 1 else 0
  }

  function KillCount(steps: seq<Step>, k: nat): (n: nat)
    requires k <= |steps|
  {
    if k == 0 then 0 else KillCount(steps, k - 1) + if Kills(steps[k - 1]) then 1 else 0
  }

  lemma StepWorks(run: seq<State>, steps: seq<Step>, k: nat)
    requires IsRun(run, steps) && k < |steps|
    ensures SizesOk(run[k]) && SizesOk(run[k + 1]) && |run[k + 1].pc| == |run[k].pc|
    ensures Work(run[k + 1]) + 1 <= Work(run[k])
                                    + (if Calls(run, steps, k) then 10 * |run[k].pc| + 8 else 0)
                                    + (if Kills(steps[k]) then 9 else 0)
  {
    RunInv(run, steps, k);
    RunLoopOk(run, steps, k);
    assert StepAt(run, steps, k);
    match steps[k]
    case Runs(p) =>
      if run[k].pc[p].WakingAt? {
        WakerWorks(run[k], p);
      } else {
        OwnerWorks(run[k], p);
      }
    case Elsewhere(o) => OtherWorks(run[k], o);
  }

  lemma Tally(each: nat, c: nat, q: nat, call: bool, kill: bool, w: nat, w': nat, k: nat)
    requires w + k <= each * c + 9 * q && w' + 1 <= w + (if call then each else 0) + (if kill then 9 else 0)
    ensures w' + k + 1 <= each * (c + if call then 1 else 0) + 9 * (q + if kill then 1 else 0)
  {
    assert each * (c + 1) == each * c + each;
  }

  /** In every run, whatever the interleaving, calls of acquiresleep and the releasesleep that follow them take at most
      10n + 8 steps each, of all processes and the scheduler together, and each kill at most 9 more: no process spins, and
      no two keep waking each other. */
  lemma {:induction false} StepsBounded(run: seq<State>, steps: seq<Step>, k: nat)
    requires IsRun(run, steps) && k < |run|
    ensures SizesOk(run[k]) && |run[k].pc| == |run[0].pc|
    ensures Work(run[k]) + k <= (10 * |run[0].pc| + 8) * CallCount(run, steps, k) + 9 * KillCount(steps, k)
  {
    if k == 0 {
      SumZero(Weights(run[0]));
    } else {
      StepsBounded(run, steps, k - 1);
      StepWorks(run, steps, k - 1);
      Tally(10 * |run[0].pc| + 8, CallCount(run, steps, k - 1), KillCount(steps, k - 1), Calls(run, steps, k - 1),
            Kills(steps[k - 1]), Work(run[k - 1]), Work(run[k]), k - 1);
    }
  }

  // ---------------------------------------------------------------- they all come to an end

  /** The run, and a step more. */
  lemma Extend(run: seq<State>, steps: seq<Step>, t: Step, s': State)
    requires IsRun(run, steps) && StepAt(run + [s'], steps + [t], |steps|)
    ensures IsRun(run + [s'], steps + [t])
  {
    forall k: nat | k < |steps + [t]| ensures StepAt(run + [s'], steps + [t], k) {
      if k < |steps| { assert StepAt(run, steps, k); }
    }
  }

  /** As long as someone is using the lock there is a step that does some of the work. */
  lemma SomeWork(run: seq<State>, steps: seq<Step>, p: nat) returns (run': seq<State>, steps': seq<Step>)
    requires IsRun(run, steps) && p < |run[|steps|].pc| && run[|steps|].pc[p] != Idle
    ensures IsRun(run', steps') && |steps'| == |steps| + 1 && run'[..|run|] == run && steps'[..|steps|] == steps
    ensures SizesOk(run[|steps|]) && SizesOk(run'[|steps'|]) && |run'[|steps'|].pc| == |run[|steps|].pc|
    ensures Work(run'[|steps'|]) < Work(run[|steps|])
  {
    var s := run[|steps|];
    NoDeadlock(run, steps, |steps|, p);
    var q: nat :| Moves(s, q);
    var t := if CanAct(s, q) then Runs(q) else if CanOther(s, Release(q)) then Elsewhere(Release(q)) else Elsewhere(Pick(q));
    var s' := if t.Runs? then Act(s, q) else Else(s, t.o);
    run', steps' := run + [s'], steps + [t];
    Extend(run, steps, t, s');
    StepWorks(run', steps', |steps|);
  }

  /** From wherever a run has got to it can be brought to an end: nobody is using the lock, and it is free. */
  lemma {:induction false} AllFinish(run: seq<State>, steps: seq<Step>) returns (run': seq<State>, steps': seq<Step>)
    requires IsRun(run, steps) && SizesOk(run[|steps|])
    ensures IsRun(run', steps') && |run| <= |run'| && run'[..|run|] == run && steps'[..|steps|] == steps
    ensures SizesOk(run'[|steps'|]) && |run'[|steps'|].pc| == |run[|steps|].pc|
    ensures !run'[|steps'|].locked && run'[|steps'|].lk == None
    ensures forall p | 0 <= p < |run[|steps|].pc| :: run'[|steps'|].pc[p] == Idle
    decreases Work(run[|steps|])
  {
    var s := run[|steps|];
    if p :| 0 <= p < |s.pc| && s.pc[p] != Idle {
      var run1, steps1 := SomeWork(run, steps, p);
      run', steps' := AllFinish(run1, steps1);
      assert run'[..|run|] == run'[..|run1|][..|run|] && steps'[..|steps|] == steps'[..|steps1|][..|steps|];
    } else {
      RunInv(run, steps, |steps|);
      run', steps' := run, steps;
      assert s.lk.Some? ==> ProcOk(s, s.lk.value);
      assert s.locked ==> ProcOk(s, s.owner.value);
    }
  }

  /** And then any process may have it: from wherever a run has got to, it can go on until process p has the lock. */
  lemma AnyoneCanHaveIt(run: seq<State>, steps: seq<Step>, p: nat) returns (run': seq<State>, steps': seq<Step>)
    requires IsRun(run, steps) && SizesOk(run[|steps|]) && p < |run[|steps|].pc|
    ensures IsRun(run', steps') && |run| <= |run'| && run'[..|run|] == run && steps'[..|steps|] == steps
    ensures p < |run'[|steps'|].pc| && HoldsLock(run'[|steps'|].pc[p])
  {
    run', steps' := AllFinish(run, steps);
    for i := 0 to 3
      invariant IsRun(run', steps') && |run| <= |run'| && run'[..|run|] == run && steps'[..|steps|] == steps
      invariant var s := run'[|steps'|]; SizesOk(s) && p < |s.pc| && !s.locked == (i < 3)
      invariant var s := run'[|steps'|]; s.pc[p] == [Idle, Want, Test, Critical][i] && (i < 2 ==> s.lk == None)
    {
      var s := run'[|steps'|];
      Extend(run', steps', Runs(p), Act(s, p));
      run', steps' := run' + [Act(s, p)], steps' + [Runs(p)];
    }
  }
}
