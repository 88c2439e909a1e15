/** What the log gets done: the last operation to end commits, a commit and a recovery that nobody stands in the way of
    come to their end, and then all that threads have read or written is durable (kernel/log.c). */
module LogProgress {
  import opened Options
  import opened LogLayout
  import opened LogProtocol
  import opened LogCommit
  import opened LogTheorems

  // ---------------------------------------------------------------- nothing is left over

  /** Between operations the log is empty, unless a commit or a recovery is at work on it. */
  predicate NothingLeft(s: State) {
    s.phase == Running && s.outstanding == 0 ==> s.lh == []
  }

  lemma EndOpLeaves(L: Layout, s: State, s': State, t: nat)
    requires Inv(L, s) && DoEndOp(s, s', t)
    ensures NothingLeft(s')
    ensures s.outstanding == 1 <==> s'.committing
    ensures s'.committing ==> s'.lh == s.lh && s'.phase == if s.lh == [] then Erased else Logging(0)
  {
    NeverCommittingInsideOp(L, s, t);
    UpdateOp(s.ops, t, None);
  }

  lemma StepLeaves(L: Layout, s: State, s': State, step: Step)
    requires Inv(L, s) && Takes(L, s, s', step) && NothingLeft(s)
    ensures NothingLeft(s')
  {
    match step
    case EndOp(t) => EndOpLeaves(L, s, s', t);
    case _ =>
  }

  lemma {:induction false} RunLeaves(L: Layout, ss: seq<State>, st: seq<Step>, k: nat)
    requires IsRun(L, ss, st) && k < |ss|
    ensures NothingLeft(ss[k])
  {
    if k > 0 {
      RunLeaves(L, ss, st, k - 1);
      RunInv(L, ss, st, k - 1);
      assert StepAt(L, ss, st, k - 1);
      StepLeaves(L, ss[k - 1], ss[k], st[k - 1]);
    }
  }

  lemma EmptyIsDurable(L: Layout, s: State)
    requires Inv(L, s) && s.phase == Running && s.outstanding == 0 && s.lh == []
    ensures View(L, s).m == View(L, s).d == map b | b in s.disk && !L.InLog(b) :: s.disk[b]
  {
    RunningIsHome(L, s);
    NoOps(s.ops);
  }

  /** In every run, whenever no operation is in progress and no commit or recovery is at work, the log is empty and
      everything that threads have written is durable, at home on the disk. */
  lemma AllCommitted(L: Layout, ss: seq<State>, st: seq<Step>, k: nat)
    requires IsRun(L, ss, st) && k < |ss| && ss[k].phase == Running && ss[k].outstanding == 0
    ensures ss[k].lh == []
    ensures View(L, ss[k]).m == View(L, ss[k]).d == map b | b in ss[k].disk && !L.InLog(b) :: ss[k].disk[b]
  {
    RunLeaves(L, ss, st, k);
    RunInv(L, ss, st, k);
    EmptyIsDurable(L, ss[k]);
  }

  /** In every run the last operation to end begins the commit, and only it. */
  lemma LastEndCommits(L: Layout, ss: seq<State>, st: seq<Step>, k: nat)
    requires IsRun(L, ss, st) && k < |st| && st[k].EndOp?
    ensures ss[k + 1].outstanding == ss[k].outstanding - 1
    ensures ss[k + 1].committing <==> ss[k + 1].outstanding == 0
    ensures ss[k + 1].committing ==>
              ss[k + 1].lh == ss[k].lh && ss[k + 1].phase == if ss[k].lh == [] then Erased else Logging(0)
  {
    RunInv(L, ss, st, k);
    assert StepAt(L, ss, st, k);
    EndOpLeaves(L, ss[k], ss[k + 1], st[k].t);
  }

  // ---------------------------------------------------------------- a commit ends

  predicate NoLocks(s: State) {
    forall b | b in s.cache :: s.cache[b].holder.None?
  }

  /** How many steps a commit or a recovery has still to take. */
  function StepsLeft(s: State): (n: nat) {
    match s.phase
    case Logging(t) => if t <= |s.lh| then 2 * |s.lh| - t + 3 else 0
    case Installing(t) => if t <= |s.lh| then |s.lh| - t + 2 else 0
    case Erased => 1
    case Replay(t) => if t <= |s.lh| then |s.lh| - t + 1 else 0
    case _ => 0
  }

  predicate IsCommit(step: Step) {
    step == WriteLogBlock || step == WriteHeader || step == InstallBlock || step == EraseHeader || step == FinishCommit
  }

  /** s' is one step nearer to the end. */
  predicate Nearer(s: State, s': State) {
    NoLocks(s') && StepsLeft(s') == StepsLeft(s) - 1 && s'.outstanding == s.outstanding
  }

  lemma CopyNoLocks(s: State, src: nat, dst: nat)
    requires NoLocks(s) && src in s.disk && dst in s.disk
    ensures NoLocks(Copy(s, src, dst)) && dst in Copy(s, src, dst).cache
  {
  }

  lemma LogNext(L: Layout, s: State) returns (s': State, step: Step)
    requires Inv(L, s) && NoLocks(s) && s.phase.Logging?
    ensures Takes(L, s, s', step) && IsCommit(step) && Nearer(s, s') && s'.committing
  {
    var t := s.phase.tail;
    if t < |s.lh| {
      step := WriteLogBlock;
      CopyNoLocks(s, s.lh[t], L.Slot(t));
      s' := Copy(s, s.lh[t], L.Slot(t)).(phase := Logging(t + 1));
    } else {
      step := WriteHeader;
      s' := Put(s, L.start, EncodeHeader(Contents(s, L.start), s.lh)).(phase := Installing(0));
    }
  }

  lemma InstallNext(L: Layout, s: State) returns (s': State)
    requires Inv(L, s) && NoLocks(s) && s.phase.Installing? && s.phase.tail < |s.lh|
    ensures Takes(L, s, s', InstallBlock) && Nearer(s, s') && s'.committing
  {
    var dst, src := s.lh[s.phase.tail], L.Slot(s.phase.tail);
    CopyNoLocks(s, src, dst);
    s' := Unpin(Copy(s, src, dst), dst).(phase := Installing(s.phase.tail + 1));
  }

  lemma EraseNext(L: Layout, s: State) returns (s': State)
    requires Inv(L, s) && NoLocks(s) && s.phase.Installing? && s.phase.tail == |s.lh|
    ensures Takes(L, s, s', EraseHeader) && Nearer(s, s') && s'.committing
  {
    s' := Put(s, L.start, EncodeHeader(Contents(s, L.start), [])).(lh := [], phase := Erased);
  }

  /** A commit that finds no buffer locked takes its next step. */
  lemma CommitNext(L: Layout, s: State) returns (s': State, step: Step)
    requires Inv(L, s) && NoLocks(s) && s.committing
    ensures Takes(L, s, s', step) && IsCommit(step) && Nearer(s, s') && (s'.committing || s'.phase == Running)
  {
    if s.phase.Logging? {
      s', step := LogNext(L, s);
    } else if s.phase.Installing? {
      if s.phase.tail < |s.lh| {
        step := InstallBlock;
        s' := InstallNext(L, s);
      } else {
        step := EraseHeader;
        s' := EraseNext(L, s);
      }
    } else {
      step := FinishCommit;
      s' := s.(committing := false, phase := Running);
    }
  }

  lemma ReachedInv(L: Layout, s: State)
    requires Reachable(L, s)
    ensures Inv(L, s) && NothingLeft(s)
  {
    var ss, st :| IsRun(L, ss, st) && ss[|st|] == s;
    RunInv(L, ss, st, |st|);
    RunLeaves(L, ss, st, |st|);
  }

  /** From wherever a commit has got to, if nobody has a buffer locked it ends, its remaining steps alone leading there:
      all that threads had written by then is durable, and the log is empty for the next operations. */
  lemma {:induction false} CommitEnds(L: Layout, s: State) returns (s': State)
    requires Reachable(L, s) && NoLocks(s) && s.committing
    ensures Reachable(L, s') && NoLocks(s') && s'.phase == Running && !s'.committing && s'.outstanding == 0
            && s'.lh == []
    ensures View(L, s').m == View(L, s').d == View(L, s).m
    decreases StepsLeft(s)
  {
    ReachedInv(L, s);
    var s1, step := CommitNext(L, s);
    ReachMore(L, s, s1, step);
    ReachedInv(L, s1);
    GoodIsSpecStep(L, s, s1, step);
    if s1.committing {
      s' := CommitEnds(L, s1);
    } else {
      s' := s1;
      EmptyIsDurable(L, s1);
    }
  }

  // ---------------------------------------------------------------- a recovery ends

  lemma ReplayNext(L: Layout, s: State) returns (s': State, step: Step)
    requires Inv(L, s) && NoLocks(s) && s.phase.Replay?
    ensures Takes(L, s, s', step) && (step == ReplayBlock || step == ReplayErase) && Nearer(s, s')
    ensures s'.phase.Replay? || s'.phase == Running
  {
    var t := s.phase.tail;
    if t < |s.lh| {
      step := ReplayBlock;
      CopyNoLocks(s, L.Slot(t), s.lh[t]);
      s' := Copy(s, L.Slot(t), s.lh[t]).(phase := Replay(t + 1));
    } else {
      step := ReplayErase;
      s' := Put(s, L.start, EncodeHeader(Contents(s, L.start), [])).(lh := [], phase := Running);
    }
  }

  lemma {:induction false} ReplayEndsWell(L: Layout, s: State) returns (s': State)
    requires Reachable(L, s) && NoLocks(s) && s.phase.Replay?
    ensures Reachable(L, s') && NoLocks(s') && s'.phase == Running && s'.outstanding == 0 && s'.lh == []
    ensures View(L, s').m == View(L, s').d == View(L, s).d
    decreases StepsLeft(s)
  {
    ReachedInv(L, s);
    var s1, step := ReplayNext(L, s);
    ReachMore(L, s, s1, step);
    ReachedInv(L, s1);
    GoodIsSpecStep(L, s, s1, step);
    if s1.phase.Replay? {
      s' := ReplayEndsWell(L, s1);
    } else {
      s' := s1;
      EmptyIsDurable(L, s1);
    }
  }

  /** A crash may come at any moment, and leaves a machine just powered on over the same disk. */
  lemma CrashRestarts(L: Layout, s: State) returns (s': State)
    requires Reachable(L, s)
    ensures Takes(L, s, s', Crash) && Reachable(L, s') && Init(L, s') && s'.disk == s.disk && |s'.ops| == |s.ops|
  {
    ReachedInv(L, s);
    s' := State(s.disk, map[], [], 0, false, Boot, seq(|s.ops|, _ => None));
    ReachMore(L, s, s', Crash);
  }

  /** Recovery from any crash ends, its own steps alone leading there: threads find what was durable, at home on the
      disk, and the log is empty. */
  lemma RecoveryEnds(L: Layout, s: State) returns (s': State)
    requires Reachable(L, s) && s.phase == Boot
    ensures Reachable(L, s') && NoLocks(s') && s'.phase == Running && s'.outstanding == 0 && s'.lh == []
    ensures View(L, s').m == View(L, s').d == View(L, s).d
  {
    ReachedInv(L, s);
    var h := s.disk[L.start];
    var s1 := s.(lh := HeaderBlocks(h), phase := Replay(0), cache := Fetch(s.disk, s.cache, L.start));
    ReachMore(L, s, s1, ReadHead);
    GoodIsSpecStep(L, s, s1, ReadHead);
    s' := ReplayEndsWell(L, s1);
  }
}
