/** The log as a concurrent protocol: system calls, commit, recovery, eviction and
    crashes interleave, one block write per step (kernel/log.c over kernel/bio.c). */
module LogProtocol {
  import opened Options
  import opened Params
  import opened LogLayout

  /** A cached block. holder is the thread with the buffer's sleep-lock, pinned says that
      bpin has been called for the log, dirty that data changed since the last log_write. */
  datatype Entry = Entry(data: Block, holder: Option<nat>, pinned: bool, dirty: bool)

  /** Where initlog or commit has got to. */
  datatype Phase =
    | Boot                  // before read_head
    | Replay(tail: nat)     // install_trans(1)
    | Running
    | Logging(tail: nat)    // write_log
    | Installing(tail: nat) // install_trans(0)
    | Erased                // commit done, committing still set

  datatype State = State(
    disk: Disk,
    cache: map<nat, Entry>,
    lh: seq<nat>,
    outstanding: int,
    committing: bool,
    phase: Phase,
    ops: seq<Option<nat>>)  // per thread: blocks its operation has added to the log

  /** What bread(b) would return: the cached copy if there is one. */
  function Contents(s: State, b: nat): (v: Block)
    requires b in s.disk
  {
    if b in s.cache then s.cache[b].data else s.disk[b]
  }

  predicate Unlocked(s: State, b: nat) { b in s.cache ==> s.cache[b].holder.None? }

  predicate InOp(s: State, t: nat) { t < |s.ops| && s.ops[t].Some? }

  predicate HoldsLock(s: State, t: nat, b: nat) { b in s.cache && s.cache[b].holder == Some(t) }

  /** log_write's first panic test. */
  predicate TooBig(L: Layout, s: State) { |s.lh| >= LOGSIZE || |s.lh| >= L.size - 1 }

  // ---------------------------------------------------------------- steps

  datatype Step =
    | BeginOp(t: nat) | Bread(t: nat, b: nat) | Modify(t: nat, b: nat, v: Block)
    | LogWrite(t: nat, b: nat) | Brelse(t: nat, b: nat) | EndOp(t: nat) | Evict(b: nat)
    | WriteLogBlock | WriteHeader | InstallBlock | EraseHeader | FinishCommit
    | Crash | ReadHead | ReplayBlock | ReplayErase

  predicate Recovering(s: State) { s.phase.Boot? || s.phase.Replay? }

  predicate DoBeginOp(s: State, s': State, t: nat) {
    && s.phase != Boot && !s.phase.Replay?
    && t < |s.ops| && s.ops[t].None?
    && !s.committing
    && |s.lh| + (s.outstanding + 1) * MAXOPBLOCKS <= LOGSIZE
    && s' == s.(outstanding := s.outstanding + 1, ops := s.ops[t := Some(0)])
  }

  predicate DoBread(L: Layout, s: State, s': State, t: nat, b: nat) {
    && !Recovering(s) && b in s.disk && !L.InLog(b) && Unlocked(s, b)
    && s' == s.(cache := s.cache[b := if b in s.cache then s.cache[b].(holder := Some(t))
                                      else Entry(s.disk[b], Some(t), false, false)])
  }

  predicate DoModify(s: State, s': State, t: nat, b: nat, v: Block) {
    && InOp(s, t) && HoldsLock(s, t, b)
    && s' == s.(cache := s.cache[b := s.cache[b].(data := v, dirty := true)])
  }

  /** The operation keeps to its reservation: it adds at most MAXOPBLOCKS new blocks. */
  predicate DoLogWrite(L: Layout, s: State, s': State, t: nat, b: nat) {
    && HoldsLock(s, t, b)
    && !TooBig(L, s) && s.outstanding >= 1
    && InOp(s, t)
    && if b in s.lh
       then s' == s.(cache := s.cache[b := s.cache[b].(dirty := false)])
       else && s.ops[t].value < MAXOPBLOCKS
            && s' == s.(lh := s.lh + [b],
                        cache := s.cache[b := s.cache[b].(dirty := false, pinned := true)],
                        ops := s.ops[t := Some(s.ops[t].value + 1)])
  }

  /** The client rule: a changed buffer goes through log_write before brelse. */
  predicate DoBrelse(s: State, s': State, t: nat, b: nat) {
    && HoldsLock(s, t, b) && !s.cache[b].dirty
    && s' == s.(cache := s.cache[b := s.cache[b].(holder := None)])
  }

  predicate NoDirtyBuffer(s: State, t: nat) {
    forall b | b in s.cache && s.cache[b].holder == Some(t) :: !s.cache[b].dirty
  }

  predicate DoEndOp(s: State, s': State, t: nat) {
    && InOp(s, t) && NoDirtyBuffer(s, t) && !s.committing
    && var s1 := s.(outstanding := s.outstanding - 1, ops := s.ops[t := None]);
       s' == if s1.outstanding == 0
             then s1.(committing := true, phase := if |s.lh| > 0 then Logging(0) else Erased)
             else s1
  }

  /** bget may recycle any buffer whose reference count is zero. */
  predicate DoEvict(s: State, s': State, b: nat) {
    && b in s.cache && s.cache[b].holder.None? && !s.cache[b].pinned
    && s' == s.(cache := s.cache - {b})
  }

  /** The cache after bread(b). */
  function Fetch(disk: Disk, cache: map<nat, Entry>, b: nat): (c: map<nat, Entry>)
    requires b in disk
  {
    if b in cache then cache else cache[b := Entry(disk[b], None, false, false)]
  }

  /** bread(b), copy v into the buffer, bwrite, brelse. */
  function Put(s: State, b: nat, v: Block): (s': State)
    requires b in s.disk
  {
    var c := Fetch(s.disk, s.cache, b);
    s.(disk := s.disk[b := v], cache := c[b := c[b].(data := v)])
  }

  function Unpin(s: State, b: nat): (s': State)
    requires b in s.cache
  {
    s.(cache := s.cache[b := s.cache[b].(pinned := false)])
  }

  predicate Ready(s: State, b: nat) { b in s.disk && Unlocked(s, b) }

  predicate DoWriteLogBlock(L: Layout, s: State, s': State) {
    && s.phase.Logging? && s.phase.tail < |s.lh|
    && var from, to := s.lh[s.phase.tail], L.Slot(s.phase.tail);
       && Ready(s, to) && Ready(s, from)
       && var s1 := s.(cache := Fetch(s.disk, s.cache, from));
          s' == Put(s1, to, Contents(s, from)).(phase := Logging(s.phase.tail + 1))
  }

  predicate DoWriteHeader(L: Layout, s: State, s': State) {
    && s.phase.Logging? && s.phase.tail == |s.lh| <= LOGSIZE
    && Ready(s, L.start)
    && s' == Put(s, L.start, EncodeHeader(Contents(s, L.start), s.lh)).(phase := Installing(0))
  }

  predicate DoInstallBlock(L: Layout, s: State, s': State) {
    && s.phase.Installing? && s.phase.tail < |s.lh|
    && var dst, src := s.lh[s.phase.tail], L.Slot(s.phase.tail);
       && Ready(s, src) && Ready(s, dst)
       && var s1 := s.(cache := Fetch(s.disk, s.cache, src));
          s' == Unpin(Put(s1, dst, Contents(s, src)), dst).(phase := Installing(s.phase.tail + 1))
  }

  predicate DoEraseHeader(L: Layout, s: State, s': State) {
    && s.phase.Installing? && s.phase.tail == |s.lh|
    && Ready(s, L.start)
    && s' == Put(s, L.start, EncodeHeader(Contents(s, L.start), [])).(lh := [], phase := Erased)
  }

  predicate DoFinishCommit(s: State, s': State) {
    && s.phase.Erased?
    && s' == s.(committing := false, phase := Running)
  }

  /** Power fails or the kernel panics: only the disk survives. */
  predicate DoCrash(s: State, s': State) {
    s' == State(s.disk, map[], [], 0, false, Boot, seq(|s.ops|, _ => None))
  }

  predicate DoReadHead(L: Layout, s: State, s': State) {
    && s.phase.Boot? && Ready(s, L.start)
    && var h := Contents(s, L.start);
       && 0 <= HeaderCount(h) <= LOGSIZE
       && (forall i | 0 <= i < HeaderCount(h) :: HeaderBlocks(h)[i] >= 0)
       && s' == s.(lh := HeaderBlocks(h), phase := Replay(0), cache := Fetch(s.disk, s.cache, L.start))
  }

  predicate DoReplayBlock(L: Layout, s: State, s': State) {
    && s.phase.Replay? && s.phase.tail < |s.lh|
    && var dst, src := s.lh[s.phase.tail], L.Slot(s.phase.tail);
       && Ready(s, src) && Ready(s, dst)
       && var s1 := s.(cache := Fetch(s.disk, s.cache, src));
          s' == Put(s1, dst, Contents(s, src)).(phase := Replay(s.phase.tail + 1))
  }

  predicate DoReplayErase(L: Layout, s: State, s': State) {
    && s.phase.Replay? && s.phase.tail == |s.lh|
    && Ready(s, L.start)
    && s' == Put(s, L.start, EncodeHeader(Contents(s, L.start), [])).(lh := [], phase := Running)
  }

  predicate Takes(L: Layout, s: State, s': State, step: Step) {
    match step
    case BeginOp(t) => DoBeginOp(s, s', t)
    case Bread(t, b) => DoBread(L, s, s', t, b)
    case Modify(t, b, v) => DoModify(s, s', t, b, v)
    case LogWrite(t, b) => DoLogWrite(L, s, s', t, b)
    case Brelse(t, b) => DoBrelse(s, s', t, b)
    case EndOp(t) => DoEndOp(s, s', t)
    case Evict(b) => DoEvict(s, s', b)
    case WriteLogBlock => DoWriteLogBlock(L, s, s')
    case WriteHeader => DoWriteHeader(L, s, s')
    case InstallBlock => DoInstallBlock(L, s, s')
    case EraseHeader => DoEraseHeader(L, s, s')
    case FinishCommit => DoFinishCommit(s, s')
    case Crash => DoCrash(s, s')
    case ReadHead => DoReadHead(L, s, s')
    case ReplayBlock => DoReplayBlock(L, s, s')
    case ReplayErase => DoReplayErase(L, s, s')
  }

  /** A machine that has just been powered on over a recoverable disk. */
  predicate Init(L: Layout, s: State) {
    && Recoverable(L, s.disk)
    && s == State(s.disk, map[], [], 0, false, Boot, seq(|s.ops|, _ => None))
  }

  // ---------------------------------------------------------------- invariant

  function InOpCount(ops: seq<Option<nat>>): (n: nat) {
    if ops == [] then 0 else (if ops[0].Some? then 1 else 0) + InOpCount(ops[1..])
  }

  /** Log slots the running operations have reserved and not used. */
  function Reserved(ops: seq<Option<nat>>): (n: int) {
    if ops == [] then 0
    else (if ops[0].Some? then MAXOPBLOCKS - ops[0].value else 0) + Reserved(ops[1..])
  }

  predicate WithinReservation(ops: seq<Option<nat>>) {
    forall t | 0 <= t < |ops| :: ops[t].Some? ==> ops[t].value <= MAXOPBLOCKS
  }

  /** Blocks logged but not yet installed at home. */
  function Pending(s: State): (p: seq<nat>) {
    match s.phase
    case Running => s.lh
    case Logging(_) => s.lh
    case Installing(t) => if t <= |s.lh| then s.lh[t..] else []
    case _ => []
  }

  /** p lists the blocks whose only current copy is the cached one. */
  predicate CacheInv(L: Layout, disk: Disk, cache: map<nat, Entry>, p: seq<nat>) {
    && (forall b | b in cache :: b in disk)
    && (forall b | b in cache && cache[b].pinned :: b in p)
    && (forall b | b in p :: b in cache && cache[b].pinned)
    && (forall b | b in cache && !cache[b].pinned && !cache[b].dirty :: cache[b].data == disk[b])
    && (forall b | b in cache && cache[b].holder.Some? :: !L.InLog(b))
  }

  /** Only a buffer locked by a running operation can be changed and unlogged. */
  predicate DirtyInv(s: State) {
    forall b | b in s.cache && s.cache[b].dirty :: s.cache[b].holder.Some? && InOp(s, s.cache[b].holder.value)
  }

  predicate OpsInv(s: State) {
    && s.outstanding == InOpCount(s.ops)
    && s.committing == (s.phase.Logging? || s.phase.Installing? || s.phase.Erased?)
    && (s.phase != Running ==> s.outstanding == 0)
    && WithinReservation(s.ops)
    && |s.lh| + Reserved(s.ops) <= LOGSIZE
  }

  /** Log blocks from..to hold the current contents of the blocks they stand for. */
  predicate Logged(L: Layout, s: State, from: nat, to: nat)
    requires from <= to <= |s.lh| && HasLog(L, s.disk) && Loggable(L, s.disk, s.lh)
  {
    forall i: nat | from <= i < to :: s.disk[L.Slot(i)] == Contents(s, s.lh[i])
  }

  predicate PhaseInv(L: Layout, s: State)
    requires HasLog(L, s.disk) && Loggable(L, s.disk, s.lh)
  {
    match s.phase
    case Boot => s.cache == map[] && s.lh == []
    case Replay(t) => t <= |s.lh| && HeaderIs(L, s.disk, s.lh) && Installed(L, s.disk, s.lh, t)
    case Running => HeaderIs(L, s.disk, [])
    case Logging(t) => t <= |s.lh| && HeaderIs(L, s.disk, []) && Logged(L, s, 0, t)
    case Installing(t) => && t <= |s.lh| && HeaderIs(L, s.disk, s.lh)
                          && Installed(L, s.disk, s.lh, t) && Logged(L, s, t, |s.lh|)
    case Erased => HeaderIs(L, s.disk, []) && s.lh == []
  }

  predicate LogInv(L: Layout, s: State) {
    && Recoverable(L, s.disk)
    && Loggable(L, s.disk, s.lh)
    && PhaseInv(L, s)
  }

  predicate Inv(L: Layout, s: State) {
    LogInv(L, s) && CacheInv(L, s.disk, s.cache, Pending(s)) && DirtyInv(s) && OpsInv(s)
  }

  // ---------------------------------------------------------------- abstraction

  /** The file system as running threads see it. */
  function Logical(L: Layout, s: State): (d: Disk)
    requires Recoverable(L, s.disk)
  {
    if Recovering(s) then Durable(L, s.disk)
    else map b | b in s.disk && !L.InLog(b) :: Contents(s, b)
  }

  /** The abstract machine: one block map in memory, one on disk. */
  predicate AbstractStep(m: Disk, d: Disk, m': Disk, d': Disk, step: Step) {
    match step
    case Modify(t, b, v) => b in m && m' == m[b := v] && d' == d
    case WriteHeader => m' == m && d' == m
    case Crash => m' == d && d' == d
    case _ => m' == m && d' == d
  }
}
