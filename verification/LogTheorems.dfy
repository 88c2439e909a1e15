/** What the log promises over whole runs: any interleaving of system calls, commits,
    evictions, crashes and recoveries. */
module LogTheorems {
  import opened Options
  import opened Params
  import opened LogLayout
  import opened LogProtocol
  import opened LogCommit

  ghost predicate StepAt(L: Layout, ss: seq<State>, st: seq<Step>, i: nat)
    requires i < |st| < |ss|
  {
    Takes(L, ss[i], ss[i + 1], st[i])
  }

  ghost predicate IsRun(L: Layout, ss: seq<State>, st: seq<Step>) {
    && |ss| == |st| + 1
    && Init(L, ss[0])
    && forall i: nat | i < |st| :: StepAt(L, ss, st, i)
  }

  ghost predicate Reachable(L: Layout, s: State) {
    exists ss, st :: IsRun(L, ss, st) && ss[|st|] == s
  }

  /** The specification machine: m is what threads read, d what survives a power failure. */
  datatype Spec = Spec(m: Disk, d: Disk)

  function SpecStep(x: Spec, step: Step): (x': Spec) {
    match step
    case Modify(_, b, v) => Spec(x.m[b := v], x.d)
    case WriteHeader => Spec(x.m, x.m)
    case Crash => Spec(x.d, x.d)
    case _ => x
  }

  function SpecRun(d0: Disk, st: seq<Step>): (x: Spec) {
    if st == [] then Spec(d0, d0) else SpecStep(SpecRun(d0, st[..|st| - 1]), st[|st| - 1])
  }

  /** The two maps a state of the protocol stands for. */
  function View(L: Layout, s: State): (x: Spec) {
    if Recoverable(L, s.disk) then Spec(Logical(L, s), Durable(L, s.disk)) else Spec(map[], map[])
  }

  lemma {:induction false} RunInv(L: Layout, ss: seq<State>, st: seq<Step>, k: nat)
    requires IsRun(L, ss, st) && k < |ss|
    ensures Inv(L, ss[k])
  {
    if k == 0 {
      InitGood(L, ss[0]);
    } else {
      RunInv(L, ss, st, k - 1);
      assert StepAt(L, ss, st, k - 1);
      StepRefines(L, ss[k - 1], ss[k], st[k - 1]);
    }
  }

  lemma GoodIsSpecStep(L: Layout, s: State, s': State, step: Step)
    requires Inv(L, s) && Takes(L, s, s', step)
    ensures View(L, s') == SpecStep(View(L, s), step)
  {
    StepRefines(L, s, s', step);
  }

  lemma RunStep(L: Layout, ss: seq<State>, st: seq<Step>, k: nat)
    requires IsRun(L, ss, st) && k < |st|
    ensures View(L, ss[k + 1]) == SpecStep(View(L, ss[k]), st[k])
  {
    RunInv(L, ss, st, k);
    assert StepAt(L, ss, st, k);
    GoodIsSpecStep(L, ss[k], ss[k + 1], st[k]);
  }

  lemma InitView(L: Layout, s: State)
    requires Init(L, s)
    ensures View(L, s) == Spec(Durable(L, s.disk), Durable(L, s.disk))
  {
  }

  /** The whole protocol refines the two-map machine, for every run and at every moment. */
  lemma {:induction false} RunRefines(L: Layout, ss: seq<State>, st: seq<Step>, k: nat)
    requires IsRun(L, ss, st) && k < |ss|
    ensures View(L, ss[k]) == SpecRun(Durable(L, ss[0].disk), st[..k])
  {
    if k == 0 {
      InitView(L, ss[0]);
    } else {
      RunRefines(L, ss, st, k - 1);
      RunStep(L, ss, st, k - 1);
      assert st[..k][..k - 1] == st[..k - 1];
    }
  }

  lemma BreadReads(L: Layout, s: State, s': State, t: nat, b: nat)
    requires Recoverable(L, s.disk) && DoBread(L, s, s', t, b)
    ensures b in View(L, s).m && b in s'.cache
    ensures s'.cache[b].holder == Some(t) && s'.cache[b].data == View(L, s).m[b]
  {
  }

  /** bread returns the latest contents the specification knows for the block. */
  lemma BreadReturnsLatest(L: Layout, ss: seq<State>, st: seq<Step>, k: nat)
    requires IsRun(L, ss, st) && k < |st| && st[k].Bread?
    ensures var b, m := st[k].b, SpecRun(Durable(L, ss[0].disk), st[..k]).m;
            && b in m && b in ss[k + 1].cache
            && ss[k + 1].cache[b].holder == Some(st[k].t)
            && ss[k + 1].cache[b].data == m[b]
  {
    RunRefines(L, ss, st, k);
    RunInv(L, ss, st, k);
    assert StepAt(L, ss, st, k);
    BreadReads(L, ss[k], ss[k + 1], st[k].t, st[k].b);
  }

  /** The index of the last header write among the first k steps; 0 when there was none. */
  function LastCommit(st: seq<Step>, k: nat): (j: nat)
    requires k <= |st|
    ensures j <= k
    ensures forall i | j < i < k :: st[i] != WriteHeader
    ensures j > 0 ==> j < k && st[j] == WriteHeader
  {
    if k == 0 then 0 else if st[k - 1] == WriteHeader then k - 1 else LastCommit(st, k - 1)
  }

  lemma {:induction false} SpecLastCommit(d0: Disk, st: seq<Step>, k: nat)
    requires k <= |st|
    ensures SpecRun(d0, st[..k]).d == SpecRun(d0, st[..LastCommit(st, k)]).m
  {
    if k > 0 {
      assert st[..k][..k - 1] == st[..k - 1];
      SpecLastCommit(d0, st, k - 1);
    }
  }

  lemma {:induction false} SpecNoHeader(d0: Disk, st: seq<Step>, i: nat, k: nat)
    requires i <= k <= |st| && forall x | i <= x < k :: st[x] != WriteHeader
    ensures SpecRun(d0, st[..k]).d == SpecRun(d0, st[..i]).d
    decreases k
  {
    if i < k {
      assert st[..k][..k - 1] == st[..k - 1];
      SpecNoHeader(d0, st, i, k - 1);
    }
  }

  lemma RunningIsHome(L: Layout, s: State)
    requires Inv(L, s)
    ensures s.phase == Running ==> View(L, s).d == map b | b in s.disk && !L.InLog(b) :: s.disk[b]
  {
    if s.phase == Running { EmptyHeaderIsHome(L, s.disk); }
  }

  lemma CommitIsQuiescent(L: Layout, s: State, s': State)
    requires Inv(L, s) && DoWriteHeader(L, s, s')
    ensures s.outstanding == 0
  {
  }

  lemma LastCommitQuiescent(L: Layout, ss: seq<State>, st: seq<Step>, k: nat)
    requires IsRun(L, ss, st) && k < |ss|
    ensures ss[LastCommit(st, k)].outstanding == 0
  {
    var j := LastCommit(st, k);
    RunInv(L, ss, st, j);
    if j > 0 { assert StepAt(L, ss, st, j); CommitIsQuiescent(L, ss[j], ss[j + 1]); }
  }

  /** Crash atomicity. Whenever the power fails, recovery leaves the file system as the threads saw
      it at the last commit, a moment at which no system call was in progress: an operation is on
      disk whole or not at all, and everything committed is there. */
  lemma CrashAtomicity(L: Layout, ss: seq<State>, st: seq<Step>, k: nat)
    requires IsRun(L, ss, st) && k < |st| && st[k] == Crash
    ensures var j := LastCommit(st, k);
            && View(L, ss[k + 1]).m == View(L, ss[k + 1]).d == View(L, ss[j]).m
            && ss[j].outstanding == 0
  {
    var j := LastCommit(st, k);
    SpecLastCommit(Durable(L, ss[0].disk), st, k);
    RunRefines(L, ss, st, j);
    RunRefines(L, ss, st, k);
    RunStep(L, ss, st, k);
    LastCommitQuiescent(L, ss, st, k);
  }

  predicate IsRecovery(step: Step) {
    step == Crash || step == ReadHead || step == ReplayBlock || step == ReplayErase || step.Evict?
  }

  /** Recovery may itself be cut short by a crash, any number of times: nothing durable moves, and
      once it completes the home blocks on disk hold exactly the durable contents. */
  lemma RecoveryIdempotent(L: Layout, ss: seq<State>, st: seq<Step>, i: nat, k: nat)
    requires IsRun(L, ss, st) && i <= k < |ss|
    requires forall x | i <= x < k :: IsRecovery(st[x])
    ensures View(L, ss[k]).d == View(L, ss[i]).d
    ensures ss[k].phase == Running ==>
              View(L, ss[i]).d == map b | b in ss[k].disk && !L.InLog(b) :: ss[k].disk[b]
  {
    SpecNoHeader(Durable(L, ss[0].disk), st, i, k);
    RunRefines(L, ss, st, i);
    RunRefines(L, ss, st, k);
    RunInv(L, ss, st, k);
    RunningIsHome(L, ss[k]);
  }

  /** Whatever is true of the file system's blocks at every moment without a system call in progress is true of the home
      blocks again once recovery from a crash is complete, however often recovery itself was cut short. */
  lemma RecoveryKeeps(L: Layout, ss: seq<State>, st: seq<Step>, i: nat, k: nat, good: Disk -> bool)
    requires IsRun(L, ss, st) && i < k < |ss| && st[i] == Crash && ss[k].phase == Running
    requires forall x | i < x < k :: IsRecovery(st[x])
    requires forall j | 0 <= j <= i && ss[j].outstanding == 0 :: good(View(L, ss[j]).m)
    ensures good(map b | b in ss[k].disk && !L.InLog(b) :: ss[k].disk[b])
  {
    CrashAtomicity(L, ss, st, i);
    RecoveryIdempotent(L, ss, st, i + 1, k);
  }

  lemma NoHeaderInsideOp(L: Layout, ss: seq<State>, st: seq<Step>, t: nat, k: nat)
    requires IsRun(L, ss, st) && k < |st| && InOp(ss[k], t)
    ensures st[k] != WriteHeader
  {
    RunInv(L, ss, st, k);
    NeverCommittingInsideOp(L, ss[k], t);
    assert StepAt(L, ss, st, k);
  }

  /** No commit happens while an operation runs, so its writes fall wholly in one commit. */
  lemma OperationInOneCommit(L: Layout, ss: seq<State>, st: seq<Step>, t: nat, i: nat, k: nat)
    requires IsRun(L, ss, st) && i <= k < |ss|
    requires forall x | i <= x <= k :: InOp(ss[x], t)
    ensures forall x | i <= x < k :: st[x] != WriteHeader
    ensures View(L, ss[k]).d == View(L, ss[i]).d
  {
    forall x | i <= x < k
      ensures st[x] != WriteHeader
    {
      NoHeaderInsideOp(L, ss, st, t, x);
    }
    SpecNoHeader(Durable(L, ss[0].disk), st, i, k);
    RunRefines(L, ss, st, i);
    RunRefines(L, ss, st, k);
  }

  /** In every run the blocks logged and the reservations still unused by running operations fit the log, and
      there is no commit while an operation runs. */
  lemma ReservationHolds(L: Layout, ss: seq<State>, st: seq<Step>, k: nat)
    requires IsRun(L, ss, st) && k < |ss|
    ensures |ss[k].lh| + Reserved(ss[k].ops) <= LOGSIZE
    ensures ss[k].outstanding == InOpCount(ss[k].ops) && (ss[k].committing ==> ss[k].outstanding == 0)
  {
    RunInv(L, ss, st, k);
  }

  /** end_op's "log.committing" panic cannot happen, and write_log always finds the block it copies
      pinned in the cache, never a stale disk copy. */
  lemma NeverCommittingInsideOp(L: Layout, s: State, t: nat)
    requires Inv(L, s)
    ensures InOp(s, t) ==> !s.committing && s.phase == Running && s.outstanding >= 1
    ensures s.phase.Logging? ==> forall i | 0 <= i < |s.lh| :: s.lh[i] in s.cache && s.cache[s.lh[i]].pinned
  {
    NoOps(s.ops);
    if s.phase.Logging? { assert forall i | 0 <= i < |s.lh| :: s.lh[i] in Pending(s); }
  }

  // ---------------------------------------------------------------- the log_write panic

  lemma {:induction false} ReservedAtLeast(ops: seq<Option<nat>>, t: nat)
    requires WithinReservation(ops) && t < |ops| && ops[t].Some?
    ensures Reserved(ops) >= MAXOPBLOCKS - ops[t].value
  {
    ReservedBounds(ops[1..]);
    if t > 0 { ReservedAtLeast(ops[1..], t - 1); }
  }

  /** log_write's size test comes before the search for the block, so whether it panics depends on the length
      of the log alone: it does exactly when the list fills the header or the log area, the block being new or
      already logged. An operation that may still add a block never meets a full header: for it the panic
      means that the log area is full. */
  lemma LogWritePanicsIff(L: Layout, s: State, t: nat)
    requires Inv(L, s) && InOp(s, t)
    ensures TooBig(L, s) <==> |s.lh| == if L.size - 1 < LOGSIZE then L.size - 1 else LOGSIZE
    ensures s.ops[t].value < MAXOPBLOCKS ==> (TooBig(L, s) <==> |s.lh| == L.size - 1) && |s.lh| < LOGSIZE
  {
    ReservedAtLeast(s.ops, t);
  }

  lemma ReachMore(L: Layout, s: State, s': State, step: Step)
    requires Reachable(L, s) && Takes(L, s, s', step)
    ensures Reachable(L, s')
  {
    var ss, st :| IsRun(L, ss, st) && ss[|st|] == s;
    var ss', st' := ss + [s'], st + [step];
    forall i: nat | i < |st'|
      ensures StepAt(L, ss', st', i)
    {
      if i < |st| { assert StepAt(L, ss, st, i); }
    }
    assert IsRun(L, ss', st') && ss'[|st'|] == s';
  }

  lemma ReachBeginOp(L: Layout, s: State, t: nat) returns (s': State)
    requires Reachable(L, s) && s.phase == Running && !s.committing
    requires t < |s.ops| && s.ops[t].None? && |s.lh| + (s.outstanding + 1) * MAXOPBLOCKS <= LOGSIZE
    ensures Reachable(L, s') && s' == s.(outstanding := s.outstanding + 1, ops := s.ops[t := Some(0)])
  {
    s' := s.(outstanding := s.outstanding + 1, ops := s.ops[t := Some(0)]);
    ReachMore(L, s, s', BeginOp(t));
  }

  /** bread of a home block that nobody has locked. */
  lemma ReachBread(L: Layout, s: State, t: nat, b: nat) returns (s': State)
    requires Reachable(L, s) && s.phase == Running && b in s.disk && !L.InLog(b) && Unlocked(s, b)
    ensures Reachable(L, s') && HoldsLock(s', t, b) && s' == s.(cache := s.cache[b := s'.cache[b]])
  {
    var e := if b in s.cache then s.cache[b].(holder := Some(t)) else Entry(s.disk[b], Some(t), false, false);
    s' := s.(cache := s.cache[b := e]);
    ReachMore(L, s, s', Bread(t, b));
  }

  /** log_write of a block new to the log. */
  lemma ReachLogWrite(L: Layout, s: State, t: nat, b: nat) returns (s': State)
    requires Reachable(L, s) && !TooBig(L, s) && s.outstanding >= 1
    requires InOp(s, t) && s.ops[t].value < MAXOPBLOCKS && HoldsLock(s, t, b) && b !in s.lh
    ensures Reachable(L, s') && HoldsLock(s', t, b) && !s'.cache[b].dirty
    ensures s' == s.(lh := s.lh + [b], cache := s.cache[b := s'.cache[b]], ops := s.ops[t := Some(s.ops[t].value + 1)])
  {
    var e := s.cache[b].(dirty := false, pinned := true);
    s' := s.(lh := s.lh + [b], cache := s.cache[b := e], ops := s.ops[t := Some(s.ops[t].value + 1)]);
    ReachMore(L, s, s', LogWrite(t, b));
  }

  lemma ReachBrelse(L: Layout, s: State, t: nat, b: nat) returns (s': State)
    requires Reachable(L, s) && HoldsLock(s, t, b) && !s.cache[b].dirty
    ensures Reachable(L, s') && s' == s.(cache := s.cache[b := s.cache[b].(holder := None)])
  {
    s' := s.(cache := s.cache[b := s.cache[b].(holder := None)]);
    ReachMore(L, s, s', Brelse(t, b));
  }

  /** bread, log_write, brelse of a block new to the log. */
  lemma ReachLogged(L: Layout, s: State, t: nat, b: nat) returns (s': State)
    requires Reachable(L, s) && s.phase == Running && !TooBig(L, s) && s.outstanding >= 1
    requires InOp(s, t) && s.ops[t].value < MAXOPBLOCKS
    requires b in s.disk && !L.InLog(b) && Unlocked(s, b) && b !in s.lh
    ensures Reachable(L, s')
    ensures s' == s.(lh := s.lh + [b], cache := s'.cache, ops := s.ops[t := Some(s.ops[t].value + 1)])
    ensures forall c | c in s'.cache :: if c == b then s'.cache[c].holder.None? else c in s.cache && s'.cache[c] == s.cache[c]
  {
    var s1 := ReachBread(L, s, t, b);
    var s2 := ReachLogWrite(L, s1, t, b);
    s' := ReachBrelse(L, s2, t, b);
  }

  lemma PoweredOn(L: Layout, disk: Disk, n: nat) returns (s: State)
    requires HasLog(L, disk) && HeaderCount(disk[L.start]) == 0
    ensures Reachable(L, s) && s == State(disk, map[], [], 0, false, Boot, seq(n, _ => None))
  {
    s := State(disk, map[], [], 0, false, Boot, seq(n, _ => None));
    var none: seq<Step> := [];
    assert HeaderBlocks(disk[L.start]) == [];
    assert IsRun(L, [s], none) && [s][|none|] == s;
  }

  lemma HeaderRead(L: Layout, s: State) returns (s': State)
    requires Reachable(L, s) && s.phase.Boot? && s.cache == map[]
    requires L.start in s.disk && HeaderCount(s.disk[L.start]) == 0
    ensures Reachable(L, s') && s' == s.(lh := [], phase := Replay(0), cache := Fetch(s.disk, map[], L.start))
  {
    s' := s.(lh := [], phase := Replay(0), cache := Fetch(s.disk, map[], L.start));
    assert HeaderBlocks(s.disk[L.start]) == [];
    ReachMore(L, s, s', ReadHead);
  }

  lemma Booted(L: Layout, disk: Disk, n: nat) returns (s: State)
    requires HasLog(L, disk) && HeaderCount(disk[L.start]) == 0
    ensures Reachable(L, s) && s.phase == Running && !s.committing && s.outstanding == 0 && s.lh == []
    ensures s.ops == seq(n, _ => None) && s.disk.Keys == disk.Keys
    ensures forall b | b in s.cache :: s.cache[b].holder.None?
  {
    var s0 := PoweredOn(L, disk, n);
    var s1 := HeaderRead(L, s0);
    s := Put(s1, L.start, EncodeHeader(disk[L.start], [])).(lh := [], phase := Running);
    ReachMore(L, s1, s, ReplayErase);
  }

  /** The number of blocks thread t has logged once k have been: ten by each thread in turn. */
  function Share(k: nat, t: nat): nat {
    if k <= 10 * t then 0 else if k >= 10 * t + 10 then 10 else k - 10 * t
  }

  /** Three operations running, k blocks logged, from block base on. */
  predicate Filled(L: Layout, s: State, base: nat, k: nat) {
    && k <= LOGSIZE && s.phase == Running && s.outstanding == 3
    && |s.lh| == k && (forall i | 0 <= i < k :: s.lh[i] == base + i)
    && s.ops == [Some(Share(k, 0)), Some(Share(k, 1)), Some(Share(k, 2))]
    && (forall b: nat | base <= b < base + LOGSIZE :: b in s.disk && !L.InLog(b))
    && forall b | b in s.cache :: s.cache[b].holder.None?
  }

  function BlankBlock(b: nat): Block { seq(WORDS, _ => 0) }

  lemma ThreeOps(L: Layout, base: nat) returns (s: State)
    requires L.size > 0 && base == L.start + L.size
    ensures Reachable(L, s) && Filled(L, s, base, 0)
  {
    var disk: Disk := map b: nat | b < base + LOGSIZE :: BlankBlock(b);
    s := Booted(L, disk, 3);
    assert s.ops == [None, None, None];
    s := ReachBeginOp(L, s, 0);
    s := ReachBeginOp(L, s, 1);
    s := ReachBeginOp(L, s, 2);
    assert forall b: nat | base <= b < base + LOGSIZE :: b in disk.Keys;
  }

  lemma {:induction false} FillLog(L: Layout, base: nat, k: nat) returns (s: State)
    requires L.size > 0 && base == L.start + L.size && k <= LOGSIZE && k <= L.size - 1
    ensures Reachable(L, s) && Filled(L, s, base, k)
  {
    if k == 0 {
      s := ThreeOps(L, base);
    } else {
      var s0 := FillLog(L, base, k - 1);
      s := ReachLogged(L, s0, (k - 1) / 10, base + (k - 1));
    }
  }

  /** For every log area of up to LOGSIZE blocks, header included, the reservation in begin_op does not rule the
      panic out: three operations that each keep to MAXOPBLOCKS lead to one of them, with a block left in its
      reservation, about to log a block that is not logged and panicking. */
  lemma ReservationAllowsPanic(L: Layout)
    requires 1 <= L.size <= LOGSIZE
    ensures exists s: State, t: nat, b: nat ::
              && Reachable(L, s) && InOp(s, t) && s.ops[t].value < MAXOPBLOCKS
              && HoldsLock(s, t, b) && b !in s.lh && TooBig(L, s)
  {
    var base, k := L.start + L.size, L.size - 1;
    var s0 := FillLog(L, base, k);
    var s := ReachBread(L, s0, 2, base + k);
    assert InOp(s, 2) && s.ops[2].value < MAXOPBLOCKS && HoldsLock(s, 2, base + k) && base + k !in s.lh && TooBig(L, s);
  }

  /** A larger log area does not help an operation that logs a block again: with the header full it panics,
      though the block is in the list already and would add nothing. */
  lemma AbsorptionPanics(L: Layout)
    requires L.size > LOGSIZE
    ensures exists s: State, t: nat, b: nat ::
              && Reachable(L, s) && InOp(s, t) && s.ops[t].value <= MAXOPBLOCKS
              && HoldsLock(s, t, b) && b in s.lh && |s.lh| == LOGSIZE && TooBig(L, s)
  {
    var base := L.start + L.size;
    var s0 := FillLog(L, base, LOGSIZE);
    var s := ReachBread(L, s0, 2, base);
    assert s.lh[0] == base;
    assert InOp(s, 2) && s.ops[2].value <= MAXOPBLOCKS && HoldsLock(s, 2, base) && base in s.lh && TooBig(L, s);
  }
}
