/** acquiresleep and releasesleep over sleep and wakeup (kernel/sleeplock.c, kernel/proc.c), lock by lock: every
    process runs the code below a step at a time, between them the scheduler and kill run too. */
module SleepLock {
  import opened Options

  /** Where a process is in the code. lk is the spinlock inside the sleep lock, own the process's own lock. */
  datatype Pc =
    | Idle                       // not using the sleep lock
    | Want                       // acquiresleep, about to acquire lk
    | Test                       // holds lk, about to look at locked
    | Falling                    // locked was set; in sleep with lk, about to acquire own
    | Dropping                   // with lk and own, about to release lk
    | Setting                    // with own, about to set chan and SLEEPING
    | Switched                   // SLEEPING and off the CPU, own not yet released by the scheduler
    | Asleep                     // own released by the scheduler
    | Woken                      // running again with own, about to clear chan and release it
    | Critical                   // has the sleep lock
    | Leaving                    // releasesleep, about to acquire lk
    | Clearing                   // with lk, about to clear locked
    | Waking(i: nat)             // in wakeup with lk, about to acquire process i's lock
    | WakingAt(i: nat)           // with it too, about to examine process i
    | Done                       // wakeup has returned, about to release lk

  datatype RunState = Running | Sleeping | Runnable

  datatype State = State(pc: seq<Pc>, run: seq<RunState>, chan: seq<bool>, plock: seq<Option<nat>>,
                         lk: Option<nat>, locked: bool, owner: Option<nat>)

  predicate SizesOk(s: State) { |s.pc| == |s.run| == |s.chan| == |s.plock| }

  // ---------------------------------------------------------------- the code

  /** Process p can take its next step: it is on a CPU, and the lock it wants is free. */
  predicate CanAct(s: State, p: nat)
    requires SizesOk(s) && p < |s.pc|
  {
    match s.pc[p]
    case Idle | Test | Dropping | Setting | Woken | Critical | Clearing | Done => true
    case WakingAt(i) => i < |s.pc|
    case Want | Leaving => s.lk == None
    case Falling => s.plock[p] == None
    case Waking(i) => i >= |s.pc| || i == p || s.plock[i] == None
    case Switched | Asleep => false
  }

  /** The next step of process p. */
  function Act(s: State, p: nat): (s': State)
    requires SizesOk(s) && p < |s.pc| && CanAct(s, p)
  {
    match s.pc[p]
    case Idle => s.(pc := s.pc[p := Want])
    case Want => s.(pc := s.pc[p := Test], lk := Some(p))
    case Test =>
      if s.locked then s.(pc := s.pc[p := Falling])
      else s.(pc := s.pc[p := Critical], locked := true, owner := Some(p), lk := None)
    case Falling => s.(pc := s.pc[p := Dropping], plock := s.plock[p := Some(p)])
    case Dropping => s.(pc := s.pc[p := Setting], lk := None)
    case Setting => s.(pc := s.pc[p := Switched], run := s.run[p := Sleeping], chan := s.chan[p := true])
    case Woken => s.(pc := s.pc[p := Want], chan := s.chan[p := false], plock := s.plock[p := None])
    case Critical => s.(pc := s.pc[p := Leaving])
    case Leaving => s.(pc := s.pc[p := Clearing], lk := Some(p))
    case Clearing => s.(pc := s.pc[p := Waking(0)], locked := false, owner := None)
    case Waking(i) =>
      if i >= |s.pc| then s.(pc := s.pc[p := Done])
      else if i == p then s.(pc := s.pc[p := Waking(i + 1)])
      else s.(pc := s.pc[p := WakingAt(i)], plock := s.plock[i := Some(p)])
    case WakingAt(i) =>
      s.(pc := s.pc[p := Waking(i + 1)], plock := s.plock[i := None],
         run := if s.run[i] == Sleeping && s.chan[i] then s.run[i := Runnable] else s.run)
    case Done => s.(pc := s.pc[p := Idle], lk := None)
    case Switched | Asleep => s
  }

  /** The steps that are not the code's own: the scheduler leaving or picking p, and kill waking p. */
  datatype Other = Release(p: nat) | Pick(p: nat) | Kill(p: nat)

  predicate CanOther(s: State, o: Other)
    requires SizesOk(s)
  {
    && o.p < |s.pc|
    && match o
       case Release(p) => s.pc[p] == Switched
       case Pick(p) => s.pc[p] == Asleep && s.run[p] == Runnable && s.plock[p] == None
       case Kill(p) => s.plock[p] == None
  }

  function Else(s: State, o: Other): (s': State)
    requires SizesOk(s) && CanOther(s, o)
  {
    match o
    case Release(p) => s.(pc := s.pc[p := Asleep], plock := s.plock[p := None])
    case Pick(p) => s.(pc := s.pc[p := Woken], run := s.run[p := Running], plock := s.plock[p := Some(p)])
    case Kill(p) => if s.run[p] == Sleeping then s.(run := s.run[p := Runnable]) else s
  }

  // ---------------------------------------------------------------- the invariant

  predicate HoldsLk(c: Pc) {
    c.Test? || c.Falling? || c.Dropping? || c.Clearing? || c.Waking? || c.WakingAt? || c.Done?
  }

  predicate HoldsOwn(c: Pc) { c.Dropping? || c.Setting? || c.Switched? || c.Woken? }

  predicate HoldsLock(c: Pc) { c.Critical? || c.Leaving? || c.Clearing? }

  predicate OnChan(c: Pc) { c.Switched? || c.Asleep? || c.Woken? }

  /** Process p found the lock taken, let go of lk and will be, or is, asleep: only a wakeup can help it. */
  predicate NeedsWakeup(s: State, p: nat)
    requires SizesOk(s) && p < |s.pc|
  {
    s.pc[p].Setting? || s.pc[p].Switched? || (s.pc[p].Asleep? && s.run[p] == Sleeping)
  }

  /** A wakeup is on its way that has not examined p yet. */
  predicate Pending(s: State, p: nat) {
    && s.lk.Some? && s.lk.value < |s.pc|
    && ((s.pc[s.lk.value].Waking? && s.pc[s.lk.value].i <= p) || (s.pc[s.lk.value].WakingAt? && s.pc[s.lk.value].i <= p))
  }

  predicate ProcOk(s: State, p: nat)
    requires SizesOk(s) && p < |s.pc|
  {
    var c := s.pc[p];
    && (HoldsLk(c) <==> s.lk == Some(p))
    && (HoldsOwn(c) ==> s.plock[p] == Some(p))
    && (c.WakingAt? ==> c.i < |s.pc| && c.i != p && s.plock[c.i] == Some(p))
    && (HoldsLock(c) <==> s.locked && s.owner == Some(p))
    && (s.run[p] == Running <==> !c.Switched? && !c.Asleep?) && (c.Switched? ==> s.run[p] == Sleeping)
    && (s.chan[p] <==> OnChan(c))
    && (c.Falling? || c.Dropping? ==> s.locked)
    && (NeedsWakeup(s, p) ==> s.locked || Pending(s, p))
  }

  /** A process's lock is held by itself, or by the waker examining it. */
  predicate PlockOk(s: State, q: nat)
    requires SizesOk(s) && q < |s.pc|
  {
    s.plock[q].Some? ==> var t := s.plock[q].value; t < |s.pc| && ((t == q && HoldsOwn(s.pc[q])) || s.pc[t] == WakingAt(q))
  }

  predicate GlobalOk(s: State) {
    && (s.lk.Some? ==> s.lk.value < |s.pc|) && (s.locked ==> s.owner.Some? && s.owner.value < |s.pc|)
  }

  predicate Inv(s: State) {
    && SizesOk(s) && GlobalOk(s)
    && (forall p: nat {:trigger ProcOk(s, p)} | p < |s.pc| :: ProcOk(s, p))
    && (forall q: nat {:trigger PlockOk(s, q)} | q < |s.pc| :: PlockOk(s, q))
  }

  // ---------------------------------------------------------------- every step keeps it

  lemma SimpleProc(s: State, p: nat, x: nat)
    requires Inv(s) && p < |s.pc| && x < |s.pc| && CanAct(s, p) && (s.pc[p].Idle? || s.pc[p].Critical?)
    ensures SizesOk(Act(s, p)) && ProcOk(Act(s, p), x) && PlockOk(Act(s, p), x)
  {
    assert ProcOk(s, p) && ProcOk(s, x) && PlockOk(s, x);
  }

  lemma TakeLkProc(s: State, p: nat, x: nat)
    requires Inv(s) && p < |s.pc| && x < |s.pc| && CanAct(s, p) && (s.pc[p].Want? || s.pc[p].Leaving?)
    ensures SizesOk(Act(s, p)) && ProcOk(Act(s, p), x) && PlockOk(Act(s, p), x)
  {
    assert ProcOk(s, p) && ProcOk(s, x) && PlockOk(s, x);
  }

  lemma TestProc(s: State, p: nat, x: nat)
    requires Inv(s) && p < |s.pc| && x < |s.pc| && CanAct(s, p) && (s.pc[p].Test?)
    ensures SizesOk(Act(s, p)) && ProcOk(Act(s, p), x) && PlockOk(Act(s, p), x)
  {
    assert ProcOk(s, p) && ProcOk(s, x) && PlockOk(s, x);
  }

  lemma FallProc(s: State, p: nat, x: nat)
    requires Inv(s) && p < |s.pc| && x < |s.pc| && CanAct(s, p) && (s.pc[p].Falling?)
    ensures SizesOk(Act(s, p)) && ProcOk(Act(s, p), x) && PlockOk(Act(s, p), x)
  {
    assert ProcOk(s, p) && ProcOk(s, x) && PlockOk(s, x);
  }

  lemma DropProc(s: State, p: nat, x: nat)
    requires Inv(s) && p < |s.pc| && x < |s.pc| && CanAct(s, p) && (s.pc[p].Dropping?)
    ensures SizesOk(Act(s, p)) && ProcOk(Act(s, p), x) && PlockOk(Act(s, p), x)
  {
    assert ProcOk(s, p) && ProcOk(s, x) && PlockOk(s, x);
  }

  lemma SetProc(s: State, p: nat, x: nat)
    requires Inv(s) && p < |s.pc| && x < |s.pc| && CanAct(s, p) && (s.pc[p].Setting?)
    ensures SizesOk(Act(s, p)) && ProcOk(Act(s, p), x) && PlockOk(Act(s, p), x)
  {
    assert ProcOk(s, p) && ProcOk(s, x) && PlockOk(s, x);
  }

  lemma WakeProc(s: State, p: nat, x: nat)
    requires Inv(s) && p < |s.pc| && x < |s.pc| && CanAct(s, p) && (s.pc[p].Woken?)
    ensures SizesOk(Act(s, p)) && ProcOk(Act(s, p), x) && PlockOk(Act(s, p), x)
  {
    assert ProcOk(s, p) && ProcOk(s, x) && PlockOk(s, x);
  }

  lemma ClearProc(s: State, p: nat, x: nat)
    requires Inv(s) && p < |s.pc| && x < |s.pc| && CanAct(s, p) && (s.pc[p].Clearing?)
    ensures SizesOk(Act(s, p)) && ProcOk(Act(s, p), x) && PlockOk(Act(s, p), x)
  {
    assert ProcOk(s, p) && ProcOk(s, x) && PlockOk(s, x);
  }

  lemma LoopProc(s: State, p: nat, x: nat)
    requires Inv(s) && p < |s.pc| && x < |s.pc| && CanAct(s, p) && (s.pc[p].Waking?)
    ensures SizesOk(Act(s, p)) && ProcOk(Act(s, p), x) && PlockOk(Act(s, p), x)
  {
    assert ProcOk(s, p) && ProcOk(s, x) && PlockOk(s, x);
  }

  lemma ExamineProc(s: State, p: nat, x: nat)
    requires Inv(s) && p < |s.pc| && x < |s.pc| && CanAct(s, p) && (s.pc[p].WakingAt?)
    ensures SizesOk(Act(s, p)) && ProcOk(Act(s, p), x) && PlockOk(Act(s, p), x)
  {
    assert ProcOk(s, p) && ProcOk(s, x) && PlockOk(s, x);
  }

  lemma FinishProc(s: State, p: nat, x: nat)
    requires Inv(s) && p < |s.pc| && x < |s.pc| && CanAct(s, p) && (s.pc[p].Done?)
    ensures SizesOk(Act(s, p)) && ProcOk(Act(s, p), x) && PlockOk(Act(s, p), x)
  {
    assert ProcOk(s, p) && ProcOk(s, x) && PlockOk(s, x);
  }

  lemma ActProc(s: State, p: nat, x: nat)
    requires Inv(s) && p < |s.pc| && x < |s.pc| && CanAct(s, p)
    ensures SizesOk(Act(s, p)) && ProcOk(Act(s, p), x) && PlockOk(Act(s, p), x)
  {
    match s.pc[p]
    case Idle | Critical => SimpleProc(s, p, x);
    case Want | Leaving => TakeLkProc(s, p, x);
    case Test => TestProc(s, p, x);
    case Falling => FallProc(s, p, x);
    case Dropping => DropProc(s, p, x);
    case Setting => SetProc(s, p, x);
    case Woken => WakeProc(s, p, x);
    case Clearing => ClearProc(s, p, x);
    case Waking(_) => LoopProc(s, p, x);
    case WakingAt(_) => ExamineProc(s, p, x);
    case Done => FinishProc(s, p, x);
  }

  lemma ActInv(s: State, p: nat)
    requires Inv(s) && p < |s.pc| && CanAct(s, p)
    ensures Inv(Act(s, p))
  {
    assert ProcOk(s, p);
    var s' := Act(s, p);
    forall x: nat | x < |s'.pc| ensures ProcOk(s', x) && PlockOk(s', x) { ActProc(s, p, x); }
  }

  lemma ReleaseProc(s: State, o: Other, x: nat)
    requires Inv(s) && CanOther(s, o) && x < |s.pc| && o.Release?
    ensures SizesOk(Else(s, o)) && ProcOk(Else(s, o), x) && PlockOk(Else(s, o), x)
  {
    assert ProcOk(s, o.p) && PlockOk(s, o.p) && ProcOk(s, x) && PlockOk(s, x);
  }

  lemma PickProc(s: State, o: Other, x: nat)
    requires Inv(s) && CanOther(s, o) && x < |s.pc| && o.Pick?
    ensures SizesOk(Else(s, o)) && ProcOk(Else(s, o), x) && PlockOk(Else(s, o), x)
  {
    assert ProcOk(s, o.p) && PlockOk(s, o.p) && ProcOk(s, x) && PlockOk(s, x);
  }

  lemma KillProc(s: State, o: Other, x: nat)
    requires Inv(s) && CanOther(s, o) && x < |s.pc| && o.Kill?
    ensures SizesOk(Else(s, o)) && ProcOk(Else(s, o), x) && PlockOk(Else(s, o), x)
  {
    assert ProcOk(s, o.p) && PlockOk(s, o.p) && ProcOk(s, x) && PlockOk(s, x);
  }

  lemma ElseProc(s: State, o: Other, x: nat)
    requires Inv(s) && CanOther(s, o) && x < |s.pc|
    ensures SizesOk(Else(s, o)) && ProcOk(Else(s, o), x) && PlockOk(Else(s, o), x)
  {
    match o
    case Release(_) => ReleaseProc(s, o, x);
    case Pick(_) => PickProc(s, o, x);
    case Kill(_) => KillProc(s, o, x);
  }

  lemma ElseInv(s: State, o: Other)
    requires Inv(s) && CanOther(s, o)
    ensures Inv(Else(s, o))
  {
    var s' := Else(s, o);
    forall x: nat | x < |s'.pc| ensures ProcOk(s', x) && PlockOk(s', x) { ElseProc(s, o, x); }
  }

  // ---------------------------------------------------------------- runs

  /** n processes, none of which uses the lock, and the lock as initsleeplock leaves it. */
  function Start(n: nat): (s: State) {
    State(seq(n, _ => Idle), seq(n, _ => Running), seq(n, _ => false), seq(n, _ => None), None, false, None)
  }

  datatype Step = Runs(p: nat) | Elsewhere(o: Other)

  predicate StepAt(run: seq<State>, steps: seq<Step>, k: nat)
    requires k + 1 < |run| && k < |steps|
  {
    && SizesOk(run[k])
    && match steps[k]
       case Runs(p) => p < |run[k].pc| && CanAct(run[k], p) && run[k + 1] == Act(run[k], p)
       case Elsewhere(o) => CanOther(run[k], o) && run[k + 1] == Else(run[k], o)
  }

  predicate IsRun(run: seq<State>, steps: seq<Step>) {
    && |run| == |steps| + 1 && run[0] == Start(|run[0].pc|)
    && forall k: nat {:trigger StepAt(run, steps, k)} | k < |steps| :: StepAt(run, steps, k)
  }

  lemma {:induction false} RunInv(run: seq<State>, steps: seq<Step>, k: nat)
    requires IsRun(run, steps) && k < |run|
    ensures Inv(run[k])
  {
    if k == 0 {
      forall p: nat | p < |run[0].pc| ensures ProcOk(run[0], p) { }
      forall q: nat | q < |run[0].pc| ensures PlockOk(run[0], q) { }
    } else {
      RunInv(run, steps, k - 1);
      assert StepAt(run, steps, k - 1);
      match steps[k - 1]
      case Runs(p) => ActInv(run[k - 1], p);
      case Elsewhere(o) => ElseInv(run[k - 1], o);
    }
  }

  /** No two processes have the sleep lock. */
  lemma MutualExclusion(run: seq<State>, steps: seq<Step>, k: nat, p: nat, q: nat)
    requires IsRun(run, steps) && k < |run| && p < |run[k].pc| && q < |run[k].pc|
    requires HoldsLock(run[k].pc[p]) && HoldsLock(run[k].pc[q])
    ensures p == q
  {
    RunInv(run, steps, k);
    assert ProcOk(run[k], p) && ProcOk(run[k], q);
  }

  /** No lost wakeup: whenever a process sleeps on the lock, or is past the point of no return to it, either the
      lock is taken, or a wakeup is under way that has yet to examine that process. */
  lemma NoLostWakeup(run: seq<State>, steps: seq<Step>, k: nat, p: nat)
    requires IsRun(run, steps) && k < |run| && SizesOk(run[k]) && p < |run[k].pc| && NeedsWakeup(run[k], p)
    ensures run[k].locked || Pending(run[k], p)
  {
    RunInv(run, steps, k);
    assert ProcOk(run[k], p);
  }

  /** A process that found the lock taken is asleep on its channel by the time any wakeup examines it. */
  lemma ExaminedAsleep(run: seq<State>, steps: seq<Step>, k: nat, t: nat, p: nat)
    requires IsRun(run, steps) && k < |run| && t < |run[k].pc| && p < |run[k].pc| && run[k].pc[t] == WakingAt(p)
    ensures SizesOk(run[k]) && !run[k].pc[p].Falling? && !run[k].pc[p].Dropping?
    ensures NeedsWakeup(run[k], p) ==> run[k].pc[p].Asleep? && run[k].run[p] == Sleeping && run[k].chan[p]
  {
    RunInv(run, steps, k);
    assert ProcOk(run[k], t) && ProcOk(run[k], p);
  }

  /** holdingsleep tells a process the truth. */
  lemma HoldingSleep(run: seq<State>, steps: seq<Step>, k: nat, p: nat)
    requires IsRun(run, steps) && k < |run| && p < |run[k].pc|
    ensures run[k].locked && run[k].owner == Some(p) <==> HoldsLock(run[k].pc[p])
  {
    RunInv(run, steps, k);
    assert ProcOk(run[k], p);
  }
}
