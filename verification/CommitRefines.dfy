/** commit and recovery as the code carries them out are runs of the log protocol (kernel/log.c): started where the
    cache, the log and the disk stand for a state that the protocol reaches, they end where they stand for another.
    What the protocol's theorems say of its reachable states therefore holds of them. */
module CommitRefines {
  import opened Options
  import opened Params
  import opened LogLayout
  import opened CacheModel
  import opened Log
  import opened LogOperation
  import opened CacheRefines
  import opened LogTheorems
  import opened LogProgress
  import P = LogProtocol

  lemma ReachEvicted(L: Layout, s: P.State, s1: P.State)
    requires Reachable(L, s) && Evictions(s, s1)
    ensures Reachable(L, s1)
  {
    var s0, o1, o2 :| EvictedTwo(s, s0, o1, s1, o2);
    if s0 != s { ReachMore(L, s, s0, P.Evict(o1)); }
    if s1 != s0 { ReachMore(L, s0, s1, P.Evict(o2)); }
  }

  lemma ReachAfter(L: Layout, s: P.State, s1: P.State, s': P.State, step: P.Step)
    requires Reachable(L, s) && StepAfter(L, s, s1, s', step)
    ensures Reachable(L, s')
  {
    ReachEvicted(L, s, s1);
    ReachMore(L, s1, s', step);
  }

  lemma ReachWrite(L: Layout, s: P.State, w: WriteRun, t: nat, n: nat, v: Block)
    requires Reachable(L, s) && IsWrite(L, s, w, t, n, v)
    ensures Reachable(L, w.s4)
  {
    if w.s0 != s { ReachMore(L, s, w.s0, P.Evict(w.evicted)); }
    ReachMore(L, w.s0, w.s1, P.Bread(t, n));
    ReachMore(L, w.s1, w.s2, P.Modify(t, n, v));
    ReachMore(L, w.s2, w.s3, P.LogWrite(t, n));
    ReachMore(L, w.s3, w.s4, P.Brelse(t, n));
  }

  /** The protocol reaches s, which has this log and phase and stands for this cache and disk. */
  ghost predicate Follows(L: Layout, s: P.State, lh: seq<nat>, phase: P.Phase, bs: seq<Buf>, pins: seq<nat>, disk: Disk,
                          dirty: set<nat>) {
    var log := lh;
    Reachable(L, s) && Stands(s, bs, pins, disk, dirty) && s.lh == log && s.phase == phase
  }

  lemma StepFollows(L: Layout, s: P.State, s1: P.State, s': P.State, step: P.Step, lh: seq<nat>, phase: P.Phase,
                    bs: seq<Buf>, pins: seq<nat>, disk: Disk, dirty: set<nat>, disk0: Disk)
    requires Reachable(L, s) && StepAfter(L, s, s1, s', step) && Reached(s', lh, phase, bs, pins, disk, dirty, disk0)
    ensures Follows(L, s', lh, phase, bs, pins, disk, dirty)
  {
    ReachAfter(L, s, s1, s', step);
  }

  /** What commit needs of the blocks it handles: they are on the disk, and neither readers (r) nor unlogged changes
      (dirty) are among them. */
  ghost predicate CommitReady(L: Layout, lh: seq<nat>, disk: Disk, r: set<nat>, dirty: set<nat>) {
    && Loggable(L, disk, lh) && Elsewhere(L, lh, r) && Elsewhere(L, lh, dirty)
    && (forall i | 0 <= i < |lh| :: L.Slot(i) in disk) && L.start in disk && L.InLog(L.start)
  }

  lemma RoundFree(L: Layout, lh: seq<nat>, bs: seq<Buf>, pins: seq<nat>, disk: Disk, p: seq<nat>, r: set<nat>,
                  dirty: set<nat>, tail: nat)
    requires Quiet(bs, pins, disk, p, r) && CommitReady(L, lh, disk, r, dirty) && tail < |lh|
    ensures var home, slot := lh[tail], L.Slot(tail);
            && PinnedValid(bs, pins) && Free(bs, home) && Free(bs, slot) && home != slot
            && home in disk && slot in disk && home !in r && slot !in r && home !in dirty && slot !in dirty
  {
    assert L.InLog(L.Slot(tail));
    QuietFree(bs, pins, disk, p, r, lh[tail]);
    QuietFree(bs, pins, disk, p, r, L.Slot(tail));
  }

  lemma LogFollows(L: Layout, s: P.State, bs: seq<Buf>, pins: seq<nat>, disk: Disk, r: set<nat>, dirty: set<nat>,
                   tail: nat, t: nat, lh: seq<nat>, k: Round, bs': seq<Buf>, pins': seq<nat>, disk': Disk)
    returns (s1: P.State, s': P.State)
    requires |bs| == |pins| == NBUF && Keys(bs, disk) && Quiet(bs, pins, disk, lh, r)
    requires CommitReady(L, lh, disk, r, dirty) && Follows(L, s, lh, P.Logging(tail), bs, pins, disk, dirty)
             && tail < |lh|
    requires ReadTwo(bs, pins, disk, L.Slot(tail), lh[tail], t, k) && Keys(bs', disk')
    requires RoundLeft(k.bs2, pins, disk, k.b2, k.b1, false, bs', pins', disk')
    ensures StepAfter(L, s, s1, s', P.WriteLogBlock) && CommitReady(L, lh, disk', r, dirty)
    ensures Follows(L, s', lh, P.Logging(tail + 1), bs', pins', disk', dirty)
  {
    RoundFree(L, lh, bs, pins, disk, lh, r, dirty, tail);
    s1, s' := LogIsStep(L, s, bs, pins, disk, dirty, tail, t, k, bs', pins', disk', lh[tail], L.Slot(tail));
    StepFollows(L, s, s1, s', P.WriteLogBlock, lh, P.Logging(tail + 1), bs', pins', disk', dirty, disk);
  }

  /** A round of write_log beside the protocol: at most two evictions, then the protocol's step. */
  method LogStep(log: Log, t: nat, tail: nat, ghost r: set<nat>, ghost s: P.State, ghost dirty: set<nat>)
    returns (ok: bool, ghost s1: P.State, ghost s': P.State)
    requires log.cache.Valid() && Quiet(log.cache.buf, log.cache.pins, log.cache.disk, log.lh, r)
    requires CommitReady(log.L, log.lh, log.cache.disk, r, dirty) && tail < |log.lh|
    requires Follows(log.L, s, log.lh, P.Logging(tail), log.cache.buf, log.cache.pins, log.cache.disk, dirty)
    modifies log.cache
    ensures ok ==> && log.cache.Valid() && Quiet(log.cache.buf, log.cache.pins, log.cache.disk, log.lh, r)
                   && StepAfter(log.L, s, s1, s', P.WriteLogBlock)
                   && CommitReady(log.L, log.lh, log.cache.disk, r, dirty)
                   && Follows(log.L, s', log.lh, P.Logging(tail + 1),
                              log.cache.buf, log.cache.pins, log.cache.disk, dirty)
    ensures !ok ==> NoBuffers(log.cache.buf)
  {
    s1, s' := s, s;
    ghost var bs, pins, disk := log.cache.buf, log.cache.pins, log.cache.disk;
    RoundFree(log.L, log.lh, bs, pins, disk, log.lh, r, dirty, tail);
    ghost var k;
    ok, k := log.LogOne(t, log.lh[tail], log.L.Slot(tail), r);
    if !ok { return; }
    s1, s' := LogFollows(log.L, s, bs, pins, disk, r, dirty, tail, t, log.lh, k,
                         log.cache.buf, log.cache.pins, log.cache.disk);
  }

  /** write_log: from Logging(0) to the end of the list. */
  method WriteLogSteps(log: Log, t: nat, ghost r: set<nat>, ghost s: P.State, ghost dirty: set<nat>)
    returns (ok: bool, ghost s': P.State)
    requires log.cache.Valid() && Quiet(log.cache.buf, log.cache.pins, log.cache.disk, log.lh, r)
    requires CommitReady(log.L, log.lh, log.cache.disk, r, dirty) && log.committing && s.committing
    requires Follows(log.L, s, log.lh, P.Logging(0), log.cache.buf, log.cache.pins, log.cache.disk, dirty)
    modifies log.cache
    ensures ok ==> && log.cache.Valid() && Quiet(log.cache.buf, log.cache.pins, log.cache.disk, log.lh, r)
                   && CommitReady(log.L, log.lh, log.cache.disk, r, dirty)
                   && Follows(log.L, s', log.lh, P.Logging(|log.lh|),
                              log.cache.buf, log.cache.pins, log.cache.disk, dirty)
    ensures !ok ==> NoBuffers(log.cache.buf)
  {
    s' := s;
    var tail := 0;
    while tail < |log.lh|
      invariant tail <= |log.lh| && log.cache.Valid() && Quiet(log.cache.buf, log.cache.pins, log.cache.disk, log.lh, r)
      invariant CommitReady(log.L, log.lh, log.cache.disk, r, dirty)
      invariant Follows(log.L, s', log.lh, P.Logging(tail), log.cache.buf, log.cache.pins, log.cache.disk, dirty)
    {
      ghost var s1;
      ok, s1, s' := LogStep(log, t, tail, r, s', dirty);
      if !ok { return; }
      tail := tail + 1;
    }
    ok := true;
  }

  function PhaseAt(recovering: bool, tail: nat): (phase: P.Phase) {
    if recovering then P.Replay(tail) else P.Installing(tail)
  }

  lemma InstallFollows(L: Layout, s: P.State, bs: seq<Buf>, pins: seq<nat>, disk: Disk, r: set<nat>, dirty: set<nat>,
                       tail: nat, t: nat, recovering: bool, lh: seq<nat>, p: seq<nat>, k: Round, bs': seq<Buf>,
                       pins': seq<nat>, disk': Disk)
    returns (s1: P.State, s': P.State)
    requires |bs| == |pins| == NBUF && Keys(bs, disk) && Quiet(bs, pins, disk, p, r)
    requires CommitReady(L, lh, disk, r, dirty) && tail < |lh|
    requires Follows(L, s, lh, PhaseAt(recovering, tail), bs, pins, disk, dirty)
    requires ReadTwo(bs, pins, disk, L.Slot(tail), lh[tail], t, k) && Keys(bs', disk')
    requires RoundLeft(k.bs2, pins, disk, k.b1, k.b2, !recovering, bs', pins', disk')
    ensures StepAfter(L, s, s1, s', if recovering then P.ReplayBlock else P.InstallBlock)
    ensures CommitReady(L, lh, disk', r, dirty)
    ensures Follows(L, s', lh, PhaseAt(recovering, tail + 1), bs', pins', disk', dirty)
  {
    var step := if recovering then P.ReplayBlock else P.InstallBlock;
    RoundFree(L, lh, bs, pins, disk, p, r, dirty, tail);
    s1, s' := InstallIsStep(L, s, bs, pins, disk, dirty, tail, t, recovering, k, bs', pins', disk',
                            L.Slot(tail), lh[tail]);
    StepFollows(L, s, s1, s', step, lh, PhaseAt(recovering, tail + 1), bs', pins', disk', dirty, disk);
  }

  /** A round of install_trans beside the protocol, at commit and during recovery. */
  method InstallStep(log: Log, t: nat, tail: nat, recovering: bool, ghost r: set<nat>, ghost s: P.State,
                     ghost dirty: set<nat>)
    returns (ok: bool, ghost s1: P.State, ghost s': P.State)
    requires CommitReady(log.L, log.lh, log.cache.disk, r, dirty) && tail < |log.lh|
    requires log.cache.Valid()
             && Quiet(log.cache.buf, log.cache.pins, log.cache.disk, StillToInstall(log.lh, tail, recovering), r)
    requires Follows(log.L, s, log.lh, PhaseAt(recovering, tail), log.cache.buf, log.cache.pins, log.cache.disk, dirty)
    modifies log.cache
    ensures ok ==> && log.cache.Valid()
                   && Quiet(log.cache.buf, log.cache.pins, log.cache.disk,
                            StillToInstall(log.lh, tail + 1, recovering), r)
                   && StepAfter(log.L, s, s1, s', if recovering then P.ReplayBlock else P.InstallBlock)
                   && CommitReady(log.L, log.lh, log.cache.disk, r, dirty)
                   && Follows(log.L, s', log.lh, PhaseAt(recovering, tail + 1),
                              log.cache.buf, log.cache.pins, log.cache.disk, dirty)
    ensures !ok ==> NoBuffers(log.cache.buf)
  {
    s1, s' := s, s;
    ghost var bs, pins, disk := log.cache.buf, log.cache.pins, log.cache.disk;
    ghost var p, p' := StillToInstall(log.lh, tail, recovering), StillToInstall(log.lh, tail + 1, recovering);
    OneInstalled(log.lh, tail, recovering);
    RoundFree(log.L, log.lh, bs, pins, disk, p, r, dirty, tail);
    ghost var k;
    ok, k := log.InstallOne(t, log.L.Slot(tail), log.lh[tail], recovering, p, p', r);
    if !ok { return; }
    s1, s' := InstallFollows(log.L, s, bs, pins, disk, r, dirty, tail, t, recovering, log.lh, p, k,
                             log.cache.buf, log.cache.pins, log.cache.disk);
  }

  /** install_trans: from the first block of the list to its end. */
  method InstallSteps(log: Log, t: nat, recovering: bool, ghost r: set<nat>, ghost s: P.State, ghost dirty: set<nat>)
    returns (ok: bool, ghost s': P.State)
    requires log.cache.Valid()
             && Quiet(log.cache.buf, log.cache.pins, log.cache.disk, StillToInstall(log.lh, 0, recovering), r)
    requires CommitReady(log.L, log.lh, log.cache.disk, r, dirty)
    requires Follows(log.L, s, log.lh, PhaseAt(recovering, 0), log.cache.buf, log.cache.pins, log.cache.disk, dirty)
    modifies log.cache
    ensures ok ==> && log.cache.Valid() && Quiet(log.cache.buf, log.cache.pins, log.cache.disk, [], r)
                   && CommitReady(log.L, log.lh, log.cache.disk, r, dirty)
                   && Follows(log.L, s', log.lh, PhaseAt(recovering, |log.lh|),
                              log.cache.buf, log.cache.pins, log.cache.disk, dirty)
    ensures !ok ==> NoBuffers(log.cache.buf)
  {
    s' := s;
    var tail := 0;
    while tail < |log.lh|
      invariant tail <= |log.lh| && log.cache.Valid()
                && Quiet(log.cache.buf, log.cache.pins, log.cache.disk, StillToInstall(log.lh, tail, recovering), r)
      invariant CommitReady(log.L, log.lh, log.cache.disk, r, dirty)
      invariant Follows(log.L, s', log.lh, PhaseAt(recovering, tail),
                        log.cache.buf, log.cache.pins, log.cache.disk, dirty)
    {
      ghost var s1;
      ok, s1, s' := InstallStep(log, t, tail, recovering, r, s', dirty);
      if !ok { return; }
      tail := tail + 1;
    }
    ok := true;
  }

  lemma HeadFollows(L: Layout, s: P.State, bs: seq<Buf>, pins: seq<nat>, disk: Disk, p: seq<nat>, r: set<nat>,
                    dirty: set<nat>, t: nat, lh: seq<nat>, lh': seq<nat>, phase: P.Phase, data: Block, b: nat,
                    bs1: seq<Buf>, bs': seq<Buf>, disk': Disk)
    returns (s1: P.State, s': P.State)
    requires |bs| == |pins| == NBUF && Keys(bs, disk) && Quiet(bs, pins, disk, p, r)
    requires CommitReady(L, lh, disk, r, dirty) && Follows(L, s, lh, phase, bs, pins, disk, dirty)
    requires HeaderDue(s, lh') && L.start !in r && L.start !in dirty && data == Current(bs, disk, L.start)
    requires |lh'| <= LOGSIZE && PutDone(bs, pins, disk, L.start, t, EncodeHeader(data, lh'), b, bs1, bs', disk')
    ensures StepAfter(L, s, s1, s', HeaderStep(s)) && CommitReady(L, lh, disk', r, dirty)
    ensures Follows(L, s', lh', HeaderTo(s).phase, bs', pins, disk', dirty)
  {
    QuietFree(bs, pins, disk, p, r, L.start);
    s1, s' := HeadIsStep(L, s, bs, pins, disk, dirty, t, lh', data, b, bs1, bs', disk');
    StepFollows(L, s, s1, s', HeaderStep(s), lh', HeaderTo(s).phase, bs', pins, disk', dirty, disk);
  }

  /** write_head beside the protocol: at most one eviction, then the step that the phase calls for. was is the list that
      the protocol has; log.lh, which is written, is that list or, once it has been installed, the empty one. */
  method HeadStep(log: Log, t: nat, ghost was: seq<nat>, ghost phase: P.Phase, ghost p: seq<nat>, ghost r: set<nat>,
                  ghost s: P.State, ghost dirty: set<nat>)
    returns (ok: bool, ghost s1: P.State, ghost s': P.State)
    requires log.cache.Valid() && Quiet(log.cache.buf, log.cache.pins, log.cache.disk, p, r)
    requires CommitReady(log.L, was, log.cache.disk, r, dirty) && |log.lh| <= LOGSIZE && HeaderDue(s, log.lh)
    requires Follows(log.L, s, was, phase, log.cache.buf, log.cache.pins, log.cache.disk, dirty)
    modifies log.cache
    ensures ok ==> && log.cache.Valid() && Quiet(log.cache.buf, log.cache.pins, log.cache.disk, p, r)
                   && StepAfter(log.L, s, s1, s', HeaderStep(s)) && CommitReady(log.L, was, log.cache.disk, r, dirty)
                   && Follows(log.L, s', log.lh, HeaderTo(s).phase,
                              log.cache.buf, log.cache.pins, log.cache.disk, dirty)
    ensures !ok ==> NoBuffers(log.cache.buf)
  {
    s1, s' := s, s;
    ghost var bs, pins, disk := log.cache.buf, log.cache.pins, log.cache.disk;
    ghost var data, b, bs1;
    ok, data, b, bs1 := log.WriteHead(t, p, r);
    if !ok { return; }
    s1, s' := HeadFollows(log.L, s, bs, pins, disk, p, r, dirty, t, was, log.lh, phase, data, b, bs1,
                          log.cache.buf, log.cache.disk);
  }

  /** install_trans, then the header with an empty list. */
  method RetireSteps(log: Log, t: nat, recovering: bool, ghost r: set<nat>, ghost s: P.State, ghost dirty: set<nat>)
    returns (ok: bool, ghost s': P.State)
    requires log.cache.Valid()
             && Quiet(log.cache.buf, log.cache.pins, log.cache.disk, StillToInstall(log.lh, 0, recovering), r)
    requires CommitReady(log.L, log.lh, log.cache.disk, r, dirty)
    requires Follows(log.L, s, log.lh, PhaseAt(recovering, 0), log.cache.buf, log.cache.pins, log.cache.disk, dirty)
    modifies log`lh, log.cache
    ensures ok ==> && log.cache.Valid() && Quiet(log.cache.buf, log.cache.pins, log.cache.disk, [], r) && log.lh == []
                   && Follows(log.L, s', [], if recovering then P.Running else P.Erased,
                              log.cache.buf, log.cache.pins, log.cache.disk, dirty)
    ensures !ok ==> NoBuffers(log.cache.buf)
  {
    ok, s' := InstallSteps(log, t, recovering, r, s, dirty);
    if !ok { return; }
    ghost var was := log.lh;
    log.lh := [];
    ghost var s1;
    ok, s1, s' := HeadStep(log, t, was, PhaseAt(recovering, |was|), [], r, s', dirty);
  }

  /** commit of a log that is not empty. Where the protocol is about to copy the log, the code's write_log, write_head,
      install_trans and second write_head take it to the end of its commit. */
  method CommitSteps(log: Log, t: nat, ghost r: set<nat>, ghost s: P.State, ghost dirty: set<nat>)
    returns (ok: bool, ghost s': P.State)
    requires log.cache.Valid() && Quiet(log.cache.buf, log.cache.pins, log.cache.disk, log.lh, r)
    requires CommitReady(log.L, log.lh, log.cache.disk, r, dirty) && log.committing && s.committing
    requires Follows(log.L, s, log.lh, P.Logging(0), log.cache.buf, log.cache.pins, log.cache.disk, dirty)
    modifies log`lh, log.cache
    ensures ok ==> && log.cache.Valid() && Quiet(log.cache.buf, log.cache.pins, log.cache.disk, [], r) && log.lh == []
                   && Follows(log.L, s', [], P.Erased, log.cache.buf, log.cache.pins, log.cache.disk, dirty)
    ensures !ok ==> NoBuffers(log.cache.buf)
  {
    ok, s' := WriteLogSteps(log, t, r, s, dirty);
    if !ok { return; }
    ghost var s1;
    ok, s1, s' := HeadStep(log, t, log.lh, P.Logging(|log.lh|), log.lh, r, s', dirty);
    if !ok { return; }
    assert StillToInstall(log.lh, 0, false) == log.lh;
    ok, s' := RetireSteps(log, t, false, r, s', dirty);
  }

  lemma RecoveryReady(L: Layout, disk: Disk, lh: seq<nat>)
    requires Recoverable(L, disk) && HeaderIs(L, disk, lh)
    ensures CommitReady(L, lh, disk, {}, {})
  {
  }

  lemma HeadTakes(L: Layout, s: P.State, lh: seq<nat>, s': P.State)
    requires s.phase == P.Boot && P.Ready(s, L.start) && Recoverable(L, s.disk) && HeaderIs(L, s.disk, lh)
    requires P.Contents(s, L.start) == s.disk[L.start]
    requires s' == s.(lh := lh, phase := P.Replay(0), cache := P.Fetch(s.disk, s.cache, L.start))
    ensures P.Takes(L, s, s', P.ReadHead)
  {
  }

  lemma HeadReadFollows(L: Layout, s: P.State, bs: seq<Buf>, pins: seq<nat>, disk: Disk, t: nat, lh: seq<nat>, b: nat,
                        bs1: seq<Buf>, bs': seq<Buf>)
    returns (s1: P.State, s': P.State)
    requires |bs| == |pins| == NBUF && Keys(bs, disk) && Quiet(bs, pins, disk, [], {}) && Recoverable(L, disk)
    requires Follows(L, s, [], P.Boot, bs, pins, disk, {}) && HeaderIs(L, disk, lh)
    requires ReadBy(bs, pins, disk, L.start, t, b, bs1) && Keys(bs1, disk) && bs1[b].data == disk[L.start]
             && ReleasedAt(bs1, b, bs')
    ensures StepAfter(L, s, s1, s', P.ReadHead) && CommitReady(L, lh, disk, {}, {})
    ensures Follows(L, s', lh, P.Replay(0), bs', pins, disk, {})
  {
    QuietFree(bs, pins, disk, [], {}, L.start);
    FetchRefines(s, bs, pins, disk, {}, L.start, t, b, bs1, bs');
    s1 := Recycled(s, bs, b, L.start);
    assert EvictedTwo(s, s1, bs[b].blockno, s1, 0);
    s' := s1.(lh := lh, phase := P.Replay(0), cache := P.Fetch(disk, s1.cache, L.start));
    HeadTakes(L, s1, lh, s');
    RecoveryReady(L, disk, lh);
    ReachAfter(L, s, s1, s', P.ReadHead);
  }

  /** recover_from_log. Where the protocol has just been powered on, read_head, install_trans and write_head take it to
      the end of recovery. */
  method RecoverSteps(log: Log, t: nat, ghost s: P.State) returns (ok: bool, ghost s': P.State)
    requires log.cache.Valid() && Quiet(log.cache.buf, log.cache.pins, log.cache.disk, [], {})
    requires Recoverable(log.L, log.cache.disk)
    requires Follows(log.L, s, [], P.Boot, log.cache.buf, log.cache.pins, log.cache.disk, {})
    modifies log`lh, log.cache
    ensures ok ==> && log.cache.Valid() && Quiet(log.cache.buf, log.cache.pins, log.cache.disk, [], {}) && log.lh == []
                   && Follows(log.L, s', [], P.Running, log.cache.buf, log.cache.pins, log.cache.disk, {})
    ensures !ok ==> NoBuffers(log.cache.buf)
  {
    s' := s;
    ghost var bs, pins := log.cache.buf, log.cache.pins;
    ghost var b, bs1, s1;
    ok, b, bs1 := log.ReadHead(t);
    if !ok { return; }
    s1, s' := HeadReadFollows(log.L, s, bs, pins, log.cache.disk, t, log.lh, b, bs1, log.cache.buf);
    ok, s' := RetireSteps(log, t, true, {}, s', {});
  }

  lemma WriteFollows(L: Layout, s: P.State, bs: seq<Buf>, pins: seq<nat>, disk: Disk, r: set<nat>, dirty: set<nat>,
                     n: nat, t: nat, v: Block, lh: seq<nat>, k: Trip, bs': seq<Buf>, pins': seq<nat>, lh': seq<nat>)
    returns (w: WriteRun)
    requires |bs| == |pins| == NBUF && Keys(bs, disk) && Quiet(bs, pins, disk, lh, r) && n !in r
    requires n !in dirty && !L.InLog(n) && MayWrite(L, s, t, n) && Follows(L, s, lh, s.phase, bs, pins, disk, dirty)
    requires BlockWritten(bs, pins, disk, lh, n, t, v, k, bs', pins', lh')
    ensures IsWrite(L, s, w, t, n, v) && Follows(L, w.s4, lh', s.phase, bs', pins', disk, dirty)
    ensures w.s4.outstanding == s.outstanding
  {
    QuietFree(bs, pins, disk, lh, r, n);
    w := WriteRefines(L, s, bs, pins, disk, dirty, n, t, v, k, bs', pins', lh');
    ReachWrite(L, s, w, t, n, v);
  }

  /** An operation's write of block n: the calls of bread, a store, log_write and brelse are four steps of the protocol,
      with an eviction before them where bread recycled the buffer of another block. */
  method WriteSteps(log: Log, t: nat, n: nat, v: Block, ghost r: set<nat>, ghost s: P.State, ghost dirty: set<nat>)
    returns (ok: bool, ghost w: WriteRun)
    requires log.cache.Valid() && Quiet(log.cache.buf, log.cache.pins, log.cache.disk, log.lh, r)
    requires n in log.cache.disk && n !in r && n !in dirty && !log.L.InLog(n)
    requires Follows(log.L, s, log.lh, s.phase, log.cache.buf, log.cache.pins, log.cache.disk, dirty)
    requires s.outstanding == log.outstanding && MayWrite(log.L, s, t, n)
    modifies log`lh, log.cache`buf, log.cache`refs, log.cache`pins
    modifies log.cache`order, log.cache`prev, log.cache`next, log.cache`stamp, log.cache`clock
    ensures ok ==> && log.cache.Valid() && Quiet(log.cache.buf, log.cache.pins, log.cache.disk, log.lh, r)
                   && IsWrite(log.L, s, w, t, n, v) && w.s4.outstanding == log.outstanding
                   && Follows(log.L, w.s4, log.lh, s.phase, log.cache.buf, log.cache.pins, log.cache.disk, dirty)
    ensures !ok ==> NoBuffers(log.cache.buf)
  {
    w := WriteRun(0, s, s, s, s, s);
    ghost var bs, pins, lh := log.cache.buf, log.cache.pins, log.lh;
    ghost var k;
    ok, k := WriteBlock(log, t, n, v, r);
    if !ok { return; }
    w := WriteFollows(log.L, s, bs, pins, log.cache.disk, r, dirty, n, t, v, lh, k,
                      log.cache.buf, log.cache.pins, log.lh);
  }

  // ---------------------------------------------------------------- begin_op and end_op

  /** begin_op admits an operation exactly where the protocol can take that step, and then has taken it. */
  method BeginStep(log: Log, t: nat, ghost s: P.State, ghost dirty: set<nat>)
    returns (admitted: bool, ghost s': P.State)
    requires Follows(log.L, s, log.lh, P.Running, log.cache.buf, log.cache.pins, log.cache.disk, dirty)
    requires s.outstanding == log.outstanding && s.committing == log.committing && t < |s.ops| && s.ops[t].None?
    modifies log`outstanding
    ensures Follows(log.L, s', log.lh, P.Running, log.cache.buf, log.cache.pins, log.cache.disk, dirty)
    ensures s'.outstanding == log.outstanding && s'.committing == log.committing
    ensures if admitted then P.DoBeginOp(s, s', t) else s' == s && forall x :: !P.DoBeginOp(s, x, t)
  {
    admitted := log.BeginOp();
    s' := if admitted then s.(outstanding := s.outstanding + 1, ops := s.ops[t := Some(0)]) else s;
    if admitted { ReachMore(log.L, s, s', P.BeginOp(t)); }
  }

  /** The protocol's end of an operation: s1 is where the step leads, from which the last operation commits. */
  lemma EndFollows(L: Layout, s: P.State, t: nat, lh: seq<nat>, bs: seq<Buf>, pins: seq<nat>, disk: Disk,
                   dirty: set<nat>)
    returns (s1: P.State)
    requires Follows(L, s, lh, P.Running, bs, pins, disk, dirty) && P.InOp(s, t) && P.NoDirtyBuffer(s, t)
    ensures P.DoEndOp(s, s1, t) && s1.outstanding == s.outstanding - 1 && (s1.committing <==> s.outstanding == 1)
    ensures Follows(L, s1, lh, if s.outstanding > 1 then P.Running else if lh == [] then P.Erased else P.Logging(0),
                    bs, pins, disk, dirty)
  {
    ReachedInv(L, s);
    NeverCommittingInsideOp(L, s, t);
    var ended := s.(outstanding := s.outstanding - 1, ops := s.ops[t := None]);
    s1 := if ended.outstanding == 0
          then ended.(committing := true, phase := if |s.lh| > 0 then P.Logging(0) else P.Erased) else ended;
    ReachMore(L, s, s1, P.EndOp(t));
  }

  /** The protocol's step out of a commit that is done. */
  lemma FinishFollows(L: Layout, s: P.State, bs: seq<Buf>, pins: seq<nat>, disk: Disk, dirty: set<nat>)
    returns (s': P.State)
    requires Follows(L, s, [], P.Erased, bs, pins, disk, dirty)
    ensures P.DoFinishCommit(s, s') && Follows(L, s', [], P.Running, bs, pins, disk, dirty)
    ensures s'.outstanding == 0 && !s'.committing && View(L, s').m == View(L, s').d
  {
    s' := s.(committing := false, phase := P.Running);
    ReachMore(L, s, s', P.FinishCommit);
    ReachedInv(L, s');
    ReachedInv(L, s);
    EmptyIsDurable(L, s');
  }

  /** end_op by the last operation: committing is set, the log is committed if there is anything in it, and committing
      is cleared. Nothing is left in the log, and all that threads read is durable. */
  method EndLast(log: Log, t: nat, ghost r: set<nat>, ghost s: P.State, ghost dirty: set<nat>)
    returns (ok: bool, ghost s1: P.State, ghost s': P.State)
    requires log.outstanding == 1 && !log.committing && s.outstanding == log.outstanding
    requires log.cache.Valid() && Quiet(log.cache.buf, log.cache.pins, log.cache.disk, log.lh, r)
    requires CommitReady(log.L, log.lh, log.cache.disk, r, dirty) && P.InOp(s, t) && P.NoDirtyBuffer(s, t)
    requires Follows(log.L, s, log.lh, P.Running, log.cache.buf, log.cache.pins, log.cache.disk, dirty)
    modifies log`outstanding, log`committing, log`lh, log.cache
    ensures P.DoEndOp(s, s1, t) && log.outstanding == 0
    ensures ok ==> && log.cache.Valid() && Quiet(log.cache.buf, log.cache.pins, log.cache.disk, [], r)
                   && log.lh == [] && !log.committing && s'.outstanding == 0 && !s'.committing
                   && View(log.L, s').m == View(log.L, s').d
                   && Follows(log.L, s', [], P.Running, log.cache.buf, log.cache.pins, log.cache.disk, dirty)
    ensures !ok ==> NoBuffers(log.cache.buf)
  {
    s1 := EndFollows(log.L, s, t, log.lh, log.cache.buf, log.cache.pins, log.cache.disk, dirty);
    log.outstanding := log.outstanding - 1;
    log.committing := true;
    ok, s' := true, s1;
    if |log.lh| > 0 {
      ok, s' := CommitSteps(log, t, r, s1, dirty);
      if !ok { return; }
    }
    log.committing := false;
    s' := FinishFollows(log.L, s', log.cache.buf, log.cache.pins, log.cache.disk, dirty);
  }

  /** end_op by any other operation: Log.EndOp is that one step of the protocol. */
  method EndStep(log: Log, t: nat, ghost r: set<nat>, ghost s: P.State, ghost dirty: set<nat>)
    returns (ghost s': P.State)
    requires log.outstanding > 1 && !log.committing && s.outstanding == log.outstanding
    requires P.InOp(s, t) && P.NoDirtyBuffer(s, t)
    requires Follows(log.L, s, log.lh, P.Running, log.cache.buf, log.cache.pins, log.cache.disk, dirty)
    modifies log`outstanding, log`committing, log`lh, log.cache
    ensures P.DoEndOp(s, s', t) && s'.outstanding == log.outstanding && !s'.committing && !log.committing
    ensures Follows(log.L, s', log.lh, P.Running, log.cache.buf, log.cache.pins, log.cache.disk, dirty)
  {
    s' := EndFollows(log.L, s, t, log.lh, log.cache.buf, log.cache.pins, log.cache.disk, dirty);
    var ok := log.EndOp(t, r);
  }
}
