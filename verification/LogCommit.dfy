/** Every step of the log protocol keeps the invariant and refines a two-map machine
    in which a commit is one atomic assignment. */
module LogCommit {
  import opened Options
  import opened Collections
  import opened Params
  import opened LogLayout
  import opened LogProtocol

  ghost predicate Good(L: Layout, s: State, s': State, step: Step) {
    && Inv(L, s) && Inv(L, s')
    && AbstractStep(Logical(L, s), Durable(L, s.disk), Logical(L, s'), Durable(L, s'.disk), step)
  }

  // ---------------------------------------------------------------- reservations

  lemma {:induction false} UpdateOp(ops: seq<Option<nat>>, t: nat, o: Option<nat>)
    requires t < |ops|
    ensures InOpCount(ops[t := o]) == InOpCount(ops) - (if ops[t].Some? then 1 else 0) + (if o.Some? then 1 else 0)
    ensures Reserved(ops[t := o]) == Reserved(ops) - (if ops[t].Some? then MAXOPBLOCKS - ops[t].value else 0)
                                                   + (if o.Some? then MAXOPBLOCKS - o.value else 0)
  {
    if t == 0 {
      assert ops[t := o][1..] == ops[1..];
    } else {
      assert ops[t := o][1..] == ops[1..][t - 1 := o];
      UpdateOp(ops[1..], t - 1, o);
    }
  }

  lemma {:induction false} ReservedBounds(ops: seq<Option<nat>>)
    requires WithinReservation(ops)
    ensures 0 <= Reserved(ops) <= MAXOPBLOCKS * InOpCount(ops)
  {
    if ops != [] { ReservedBounds(ops[1..]); }
  }

  lemma {:induction false} NoOps(ops: seq<Option<nat>>)
    ensures InOpCount(ops) == 0 <==> forall t | 0 <= t < |ops| :: ops[t].None?
    ensures InOpCount(ops) == 0 ==> Reserved(ops) == 0
  {
    if ops != [] {
      NoOps(ops[1..]);
      assert forall t | 1 <= t < |ops| :: ops[t] == ops[1..][t - 1];
    }
  }

  /** With no operation running there is no changed, unlogged buffer. */
  lemma QuiescentClean(L: Layout, s: State)
    requires Inv(L, s) && s.outstanding == 0
    ensures forall b | b in s.cache :: !s.cache[b].dirty
    ensures Reserved(s.ops) == 0
    ensures forall t: nat :: !InOp(s, t)
  {
    NoOps(s.ops);
  }

  // ---------------------------------------------------------------- frames

  /** A step that leaves the disk and what bread returns alone leaves both maps alone. */
  lemma SameView(L: Layout, s: State, s': State)
    requires Recoverable(L, s.disk) && s'.disk == s.disk && Recovering(s') == Recovering(s)
    requires forall c | c in s.disk && !L.InLog(c) :: Contents(s', c) == Contents(s, c)
    ensures Logical(L, s') == Logical(L, s)
  {
  }

  /** A step that leaves the disk, the log and the logged blocks' contents alone keeps LogInv. */
  lemma SameLog(L: Layout, s: State, s': State)
    requires LogInv(L, s) && s'.disk == s.disk && s'.lh == s.lh && s'.phase == s.phase
    requires s.phase.Boot? ==> s'.cache == map[]
    requires s.phase.Running? || forall c | c in s.disk :: Contents(s', c) == Contents(s, c)
    ensures LogInv(L, s')
  {
  }

  /** Replacing one cache entry by a coherent one keeps the cache coherent. */
  lemma EntryKeeps(L: Layout, s: State, p: seq<nat>, b: nat, e: Entry, p': seq<nat>)
    requires CacheInv(L, s.disk, s.cache, p) && DirtyInv(s) && b in s.disk
    requires forall c | c != b :: c in p' <==> c in p
    requires e.pinned <==> b in p'
    requires !e.pinned && !e.dirty ==> e.data == s.disk[b]
    requires e.holder.Some? ==> !L.InLog(b)
    requires e.dirty ==> e.holder.Some? && InOp(s, e.holder.value)
    ensures CacheInv(L, s.disk, s.cache[b := e], p') && DirtyInv(s.(cache := s.cache[b := e]))
  {
    var s' := s.(cache := s.cache[b := e]);
    assert forall u: nat :: InOp(s, u) == InOp(s', u);
  }

  lemma EvictKeeps(L: Layout, s: State, p: seq<nat>, b: nat)
    requires CacheInv(L, s.disk, s.cache, p) && DirtyInv(s) && b in s.cache
    requires s.cache[b].holder.None? && !s.cache[b].pinned
    ensures CacheInv(L, s.disk, s.cache - {b}, p) && DirtyInv(s.(cache := s.cache - {b}))
    ensures forall c | c in s.disk :: Contents(s.(cache := s.cache - {b}), c) == Contents(s, c)
  {
    var s' := s.(cache := s.cache - {b});
    assert forall u: nat :: InOp(s, u) == InOp(s', u);
  }

  lemma FetchKeeps(L: Layout, s: State, p: seq<nat>, b: nat)
    requires CacheInv(L, s.disk, s.cache, p) && DirtyInv(s) && b in s.disk
    ensures var s' := s.(cache := Fetch(s.disk, s.cache, b));
            && CacheInv(L, s.disk, s'.cache, p) && DirtyInv(s')
            && forall c | c in s.disk :: Contents(s', c) == Contents(s, c) && Unlocked(s', c) == Unlocked(s, c)
  {
  }

  lemma PutKeeps(L: Layout, s: State, p: seq<nat>, b: nat, v: Block)
    requires CacheInv(L, s.disk, s.cache, p) && DirtyInv(s) && Ready(s, b) && b !in p
    ensures var s' := Put(s, b, v);
            && CacheInv(L, s'.disk, s'.cache, p) && DirtyInv(s')
            && forall c | c in s.disk :: Contents(s', c) == if c == b then v else Contents(s, c)
  {
  }

  /** The state after copying block src's contents over block dst and writing dst out. */
  function Copy(s: State, src: nat, dst: nat): (s': State)
    requires src in s.disk && dst in s.disk
  {
    Put(s.(cache := Fetch(s.disk, s.cache, src)), dst, Contents(s, src))
  }

  lemma CopyKeeps(L: Layout, s: State, p: seq<nat>, src: nat, dst: nat)
    requires CacheInv(L, s.disk, s.cache, p) && DirtyInv(s) && Ready(s, src) && Ready(s, dst) && dst !in p
    ensures var s' := Copy(s, src, dst);
            && CacheInv(L, s'.disk, s'.cache, p) && DirtyInv(s')
            && forall c | c in s.disk :: Contents(s', c) == Contents(s, if c == dst then src else c)
  {
    FetchKeeps(L, s, p, src);
    PutKeeps(L, s.(cache := Fetch(s.disk, s.cache, src)), p, dst, Contents(s, src));
  }

  lemma UnpinKeeps(L: Layout, s: State, p: seq<nat>, b: nat, p': seq<nat>)
    requires CacheInv(L, s.disk, s.cache, p) && DirtyInv(s) && b in p && b !in p' && Unlocked(s, b)
    requires forall c | c != b :: c in p' <==> c in p
    ensures var s' := Unpin(Put(s, b, s.cache[b].data), b);
            && CacheInv(L, s'.disk, s'.cache, p') && DirtyInv(s')
            && forall c | c in s.disk :: Contents(s', c) == Contents(s, c)
  {
    var s' := Unpin(Put(s, b, s.cache[b].data), b);
    assert forall u: nat :: InOp(s, u) == InOp(s', u);
  }

  /** Installing a pinned block that the log block agrees with, and unpinning it. */
  lemma InstallKeeps(L: Layout, s: State, p: seq<nat>, src: nat, dst: nat, p': seq<nat>)
    requires CacheInv(L, s.disk, s.cache, p) && DirtyInv(s) && Ready(s, src) && Ready(s, dst)
    requires dst in p && dst !in p' && Contents(s, src) == Contents(s, dst)
    requires forall c | c != dst :: c in p' <==> c in p
    ensures dst in Copy(s, src, dst).cache
    ensures var s' := Unpin(Copy(s, src, dst), dst);
            && CacheInv(L, s'.disk, s'.cache, p') && DirtyInv(s')
            && forall c | c in s.disk :: Contents(s', c) == Contents(s, c)
  {
    FetchKeeps(L, s, p, src);
    UnpinKeeps(L, s.(cache := Fetch(s.disk, s.cache, src)), p, dst, p');
  }

  /** A clean unpinned block reads as it is on disk. */
  lemma CleanReads(L: Layout, s: State, p: seq<nat>, b: nat)
    requires CacheInv(L, s.disk, s.cache, p) && DirtyInv(s) && Ready(s, b) && b !in p
    ensures Contents(s, b) == s.disk[b]
  {
  }

  // ---------------------------------------------------------------- steps of system calls

  /** A step is good when each part of the invariant holds after it and the two maps move as they should. */
  lemma Concludes(L: Layout, s: State, s': State, step: Step)
    requires Inv(L, s) && LogInv(L, s') && CacheInv(L, s'.disk, s'.cache, Pending(s')) && DirtyInv(s') && OpsInv(s')
    requires AbstractStep(Logical(L, s), Durable(L, s.disk), Logical(L, s'), Durable(L, s'.disk), step)
    ensures Good(L, s, s', step)
  {
  }

  lemma BeginOpGood(L: Layout, s: State, s': State, t: nat)
    requires Inv(L, s) && DoBeginOp(s, s', t)
    ensures Good(L, s, s', BeginOp(t))
  {
    UpdateOp(s.ops, t, Some(0));
    ReservedBounds(s.ops);
    assert forall u: nat :: InOp(s, u) ==> InOp(s', u);
    SameLog(L, s, s');
    SameView(L, s, s');
  }

  lemma BreadGood(L: Layout, s: State, s': State, t: nat, b: nat)
    requires Inv(L, s) && DoBread(L, s, s', t, b)
    ensures Good(L, s, s', Bread(t, b))
  {
    EntryKeeps(L, s, Pending(s), b, s'.cache[b], Pending(s));
    SameLog(L, s, s');
    SameView(L, s, s');
  }

  lemma ModifyGood(L: Layout, s: State, s': State, t: nat, b: nat, v: Block)
    requires Inv(L, s) && DoModify(s, s', t, b, v)
    ensures Good(L, s, s', Modify(t, b, v))
  {
    NoOps(s.ops);
    EntryKeeps(L, s, Pending(s), b, s'.cache[b], Pending(s));
    SameLog(L, s, s');
    assert Logical(L, s') == Logical(L, s)[b := v];
  }

  lemma LogWriteAppends(L: Layout, s: State, s': State, b: nat)
    requires LogInv(L, s) && s.phase.Running? && !TooBig(L, s) && b in s.disk && !L.InLog(b) && b !in s.lh
    requires s'.disk == s.disk && s'.phase == s.phase && s'.lh == s.lh + [b]
    ensures LogInv(L, s')
  {
  }

  lemma AbsorbedGood(L: Layout, s: State, s': State, t: nat, b: nat)
    requires Inv(L, s) && DoLogWrite(L, s, s', t, b) && b in s.lh
    ensures Good(L, s, s', LogWrite(t, b))
  {
    NoOps(s.ops);
    EntryKeeps(L, s, s.lh, b, s'.cache[b], s.lh);
    SameLog(L, s, s');
    SameView(L, s, s');
  }

  lemma AppendedGood(L: Layout, s: State, s': State, t: nat, b: nat)
    requires Inv(L, s) && DoLogWrite(L, s, s', t, b) && b !in s.lh
    ensures Good(L, s, s', LogWrite(t, b))
  {
    NoOps(s.ops);
    AppendedCache(L, s, s', t, b);
    AppendedOps(s, s', t);
    LogWriteAppends(L, s, s', b);
    SameView(L, s, s');
    Concludes(L, s, s', LogWrite(t, b));
  }

  /** Appending pins the block, which makes the list again what is pinned. */
  lemma AppendedCache(L: Layout, s: State, s': State, t: nat, b: nat)
    requires CacheInv(L, s.disk, s.cache, s.lh) && DirtyInv(s) && DoLogWrite(L, s, s', t, b) && b !in s.lh
    ensures CacheInv(L, s'.disk, s'.cache, s'.lh) && DirtyInv(s') && b in s.disk && !L.InLog(b)
  {
    EntryKeeps(L, s, s.lh, b, s'.cache[b], s'.lh);
    assert forall u: nat :: InOp(s, u) == InOp(s', u);
  }

  /** One block more in the list, one fewer reserved. */
  lemma AppendedOps(s: State, s': State, t: nat)
    requires OpsInv(s) && InOp(s, t) && s.ops[t].value < MAXOPBLOCKS && |s'.lh| == |s.lh| + 1
    requires s'.outstanding == s.outstanding && s'.committing == s.committing && s'.phase == s.phase
    requires s'.ops == s.ops[t := Some(s.ops[t].value + 1)]
    ensures OpsInv(s')
  {
    UpdateOp(s.ops, t, Some(s.ops[t].value + 1));
  }

  lemma LogWriteGood(L: Layout, s: State, s': State, t: nat, b: nat)
    requires Inv(L, s) && DoLogWrite(L, s, s', t, b)
    ensures Good(L, s, s', LogWrite(t, b))
  {
    if b in s.lh { AbsorbedGood(L, s, s', t, b); } else { AppendedGood(L, s, s', t, b); }
  }

  lemma BrelseGood(L: Layout, s: State, s': State, t: nat, b: nat)
    requires Inv(L, s) && DoBrelse(s, s', t, b)
    ensures Good(L, s, s', Brelse(t, b))
  {
    EntryKeeps(L, s, Pending(s), b, s'.cache[b], Pending(s));
    SameLog(L, s, s');
    SameView(L, s, s');
  }

  lemma EndOpGood(L: Layout, s: State, s': State, t: nat)
    requires Inv(L, s) && DoEndOp(s, s', t)
    ensures Good(L, s, s', EndOp(t))
  {
    UpdateOp(s.ops, t, None);
    NoOps(s.ops);
    ReservedBounds(s'.ops);
    assert forall u: nat :: u != t ==> InOp(s, u) == InOp(s', u);
    SameView(L, s, s');
  }

  lemma EvictGood(L: Layout, s: State, s': State, b: nat)
    requires Inv(L, s) && DoEvict(s, s', b)
    ensures Good(L, s, s', Evict(b))
  {
    EvictKeeps(L, s, Pending(s), b);
    SameLog(L, s, s');
    SameView(L, s, s');
  }

  // ---------------------------------------------------------------- steps of commit

  lemma LogExtends(L: Layout, s: State, s': State)
    requires LogInv(L, s) && s.phase.Logging? && s.phase.tail < |s.lh|
    requires s'.lh == s.lh && s'.phase == Logging(s.phase.tail + 1)
    requires s'.disk == s.disk[L.Slot(s.phase.tail) := Contents(s, s.lh[s.phase.tail])]
    requires forall c | c in s.disk && !L.InLog(c) :: Contents(s', c) == Contents(s, c)
    ensures LogInv(L, s') && Durable(L, s'.disk) == Durable(L, s.disk) && Logical(L, s') == Logical(L, s)
  {
    SlotWritten(L, s.disk, s.phase.tail, Contents(s, s.lh[s.phase.tail]));
    assert forall i: nat | i < |s.lh| && i != s.phase.tail :: s'.disk[L.Slot(i)] == s.disk[L.Slot(i)];
  }

  lemma WriteLogBlockGood(L: Layout, s: State, s': State)
    requires Inv(L, s) && DoWriteLogBlock(L, s, s')
    ensures Good(L, s, s', WriteLogBlock)
  {
    assert L.InLog(L.Slot(s.phase.tail));
    CopyKeeps(L, s, s.lh, s.lh[s.phase.tail], L.Slot(s.phase.tail));
    LogExtends(L, s, s');
    assert forall u: nat :: InOp(s, u) == InOp(s', u);
  }

  /** The header write commits: what is durable becomes what the threads see. */
  lemma HeaderAdvances(L: Layout, s: State, s': State, buf: Block)
    requires LogInv(L, s) && s.phase == Logging(|s.lh|)
    requires forall c | c in s.disk && c !in s.lh && !L.InLog(c) :: Contents(s, c) == s.disk[c]
    requires s'.lh == s.lh && s'.phase == Installing(0) && s'.disk == s.disk[L.start := EncodeHeader(buf, s.lh)]
    requires forall c | c in s.disk && !L.InLog(c) :: Contents(s', c) == Contents(s, c)
    ensures LogInv(L, s') && Logical(L, s') == Logical(L, s) && Durable(L, s'.disk) == Logical(L, s)
  {
    HeaderWritten(L, s.disk, buf, s.lh);
    forall b | b in s.disk && !L.InLog(b) ensures DurableAt(L, s'.disk, b) == Contents(s, b) { HeaderAdvancesAt(L, s, buf, b); }
  }

  lemma HeaderAdvancesAt(L: Layout, s: State, buf: Block, b: nat)
    requires LogInv(L, s) && s.phase == Logging(|s.lh|) && b in s.disk && !L.InLog(b)
    requires b !in s.lh ==> Contents(s, b) == s.disk[b]
    ensures var disk := s.disk[L.start := EncodeHeader(buf, s.lh)];
            Recoverable(L, disk)
            && DurableAt(L, disk, b) == Contents(s, b)
  {
    HeaderWritten(L, s.disk, buf, s.lh);
    HeaderCommits(L, s.disk, buf, s.lh, b);
    if b in s.lh { assert s.disk[L.Slot(IndexOf(s.lh, b))] == Contents(s, s.lh[IndexOf(s.lh, b)]); }
  }

  lemma WriteHeaderGood(L: Layout, s: State, s': State)
    requires Inv(L, s) && DoWriteHeader(L, s, s')
    ensures Good(L, s, s', WriteHeader)
  {
    QuiescentClean(L, s);
    HeaderCache(L, s, s');
    HeaderAdvances(L, s, s', Contents(s, L.start));
    assert Pending(s') == s.lh;
    SameOps(s, s');
    Concludes(L, s, s', WriteHeader);
  }

  lemma HeaderCache(L: Layout, s: State, s': State)
    requires CacheInv(L, s.disk, s.cache, s.lh) && DirtyInv(s) && DoWriteHeader(L, s, s') && L.start !in s.lh
    ensures CacheInv(L, s'.disk, s'.cache, s.lh) && DirtyInv(s')
    ensures s'.disk == s.disk[L.start := EncodeHeader(Contents(s, L.start), s.lh)]
    ensures forall c | c in s.disk && c != L.start :: Contents(s', c) == Contents(s, c)
  {
    PutKeeps(L, s, s.lh, L.start, EncodeHeader(Contents(s, L.start), s.lh));
    assert forall u: nat :: InOp(s, u) == InOp(s', u);
  }

  /** A step inside commit leaves the operations and the reservations alone. */
  lemma SameOps(s: State, s': State)
    requires OpsInv(s) && s.committing && s'.committing && s'.outstanding == s.outstanding && s'.ops == s.ops
    requires |s'.lh| <= |s.lh| && (s'.phase.Logging? || s'.phase.Installing? || s'.phase.Erased?)
    ensures OpsInv(s')
  {
  }

  lemma InstallAdvances(L: Layout, s: State, s': State)
    requires LogInv(L, s) && s.phase.Installing? && s.phase.tail < |s.lh|
    requires s'.lh == s.lh && s'.phase == Installing(s.phase.tail + 1)
    requires s'.disk == s.disk[s.lh[s.phase.tail] := s.disk[L.Slot(s.phase.tail)]]
    requires forall c | c in s.disk :: Contents(s', c) == Contents(s, c)
    ensures LogInv(L, s') && Durable(L, s'.disk) == Durable(L, s.disk) && Logical(L, s') == Logical(L, s)
  {
    InstallInvisible(L, s.disk, s.lh, s.phase.tail);
    InstallExtends(L, s.disk, s.lh, s.phase.tail);
  }

  lemma TailSplits(lh: seq<nat>, t: nat)
    requires t < |lh| && Distinct(lh)
    ensures lh[t] in lh[t..] && lh[t] !in lh[t + 1..]
    ensures forall c | c != lh[t] :: c in lh[t + 1..] <==> c in lh[t..]
  {
    assert lh[t..] == [lh[t]] + lh[t + 1..];
  }

  lemma InstallBlockCache(L: Layout, s: State, s': State, t: nat, src: nat, dst: nat)
    requires DoInstallBlock(L, s, s') && t == s.phase.tail && src == L.Slot(t) && dst == s.lh[t] && Distinct(s.lh)
    requires dst in s.disk && src in s.disk && src !in s.lh && s.disk[src] == Contents(s, dst)
    requires CacheInv(L, s.disk, s.cache, s.lh[t..]) && DirtyInv(s)
    ensures CacheInv(L, s'.disk, s'.cache, s.lh[t + 1..]) && DirtyInv(s')
    ensures s'.disk == s.disk[dst := s.disk[src]]
    ensures forall c | c in s.disk :: Contents(s', c) == Contents(s, c)
  {
    TailSplits(s.lh, t);
    CleanReads(L, s, s.lh[t..], src);
    InstallKeeps(L, s, s.lh[t..], src, dst, s.lh[t + 1..]);
    assert forall u: nat :: InOp(s, u) == InOp(s', u);
  }

  lemma InstallBlockGood(L: Layout, s: State, s': State)
    requires Inv(L, s) && DoInstallBlock(L, s, s')
    ensures Good(L, s, s', InstallBlock)
  {
    assert L.InLog(L.Slot(s.phase.tail));
    InstallBlockCache(L, s, s', s.phase.tail, L.Slot(s.phase.tail), s.lh[s.phase.tail]);
    InstallAdvances(L, s, s');
    Concludes(L, s, s', InstallBlock);
  }

  lemma EraseAdvances(L: Layout, s: State, s': State, buf: Block)
    requires LogInv(L, s) && s.phase == Installing(|s.lh|)
    requires s'.lh == [] && s'.phase == Erased && s'.disk == s.disk[L.start := EncodeHeader(buf, [])]
    requires forall c | c in s.disk && !L.InLog(c) :: Contents(s', c) == Contents(s, c)
    ensures LogInv(L, s') && Durable(L, s'.disk) == Durable(L, s.disk) && Logical(L, s') == Logical(L, s)
  {
    EraseInvisible(L, s.disk, buf, s.lh);
  }

  lemma EraseHeaderGood(L: Layout, s: State, s': State)
    requires Inv(L, s) && DoEraseHeader(L, s, s')
    ensures Good(L, s, s', EraseHeader)
  {
    PutKeeps(L, s, [], L.start, EncodeHeader(Contents(s, L.start), []));
    EraseAdvances(L, s, s', Contents(s, L.start));
    SameOps(s, s');
    Concludes(L, s, s', EraseHeader);
  }

  lemma FinishCommitGood(L: Layout, s: State, s': State)
    requires Inv(L, s) && DoFinishCommit(s, s')
    ensures Good(L, s, s', FinishCommit)
  {
  }

  // ---------------------------------------------------------------- crash and recovery

  lemma CrashGood(L: Layout, s: State, s': State)
    requires Inv(L, s) && DoCrash(s, s')
    ensures Good(L, s, s', Crash)
  {
    NoOps(s'.ops);
  }

  lemma ReadHeadGood(L: Layout, s: State, s': State)
    requires Inv(L, s) && DoReadHead(L, s, s')
    ensures Good(L, s, s', ReadHead)
  {
    QuiescentClean(L, s);
    FetchKeeps(L, s, [], L.start);
  }

  lemma ReplayAdvances(L: Layout, s: State, s': State)
    requires LogInv(L, s) && s.phase.Replay? && s.phase.tail < |s.lh|
    requires s'.lh == s.lh && s'.phase == Replay(s.phase.tail + 1)
    requires s'.disk == s.disk[s.lh[s.phase.tail] := s.disk[L.Slot(s.phase.tail)]]
    ensures LogInv(L, s') && Durable(L, s'.disk) == Durable(L, s.disk)
  {
    InstallInvisible(L, s.disk, s.lh, s.phase.tail);
    InstallExtends(L, s.disk, s.lh, s.phase.tail);
  }

  lemma ReplayBlockGood(L: Layout, s: State, s': State)
    requires Inv(L, s) && DoReplayBlock(L, s, s')
    ensures Good(L, s, s', ReplayBlock)
  {
    CleanReads(L, s, [], L.Slot(s.phase.tail));
    CopyKeeps(L, s, [], L.Slot(s.phase.tail), s.lh[s.phase.tail]);
    ReplayAdvances(L, s, s');
    assert forall u: nat :: InOp(s, u) == InOp(s', u);
    Concludes(L, s, s', ReplayBlock);
  }

  lemma ReplayEnds(L: Layout, s: State, s': State, buf: Block)
    requires LogInv(L, s) && s.phase == Replay(|s.lh|)
    requires s'.lh == [] && s'.phase == Running && s'.disk == s.disk[L.start := EncodeHeader(buf, [])]
    requires forall c | c in s.disk && !L.InLog(c) :: Contents(s', c) == s.disk[c]
    ensures LogInv(L, s') && Durable(L, s'.disk) == Durable(L, s.disk) && Logical(L, s') == Logical(L, s)
  {
    EraseInvisible(L, s.disk, buf, s.lh);
  }

  lemma ReplayEraseGood(L: Layout, s: State, s': State)
    requires Inv(L, s) && DoReplayErase(L, s, s')
    ensures Good(L, s, s', ReplayErase)
  {
    QuiescentClean(L, s);
    PutKeeps(L, s, [], L.start, EncodeHeader(Contents(s, L.start), []));
    ReplayEnds(L, s, s', Contents(s, L.start));
  }

  // ---------------------------------------------------------------- the refinement

  /** Every step keeps the invariant and is one step of the two-map machine. */
  lemma StepRefines(L: Layout, s: State, s': State, step: Step)
    requires Inv(L, s) && Takes(L, s, s', step)
    ensures Good(L, s, s', step)
  {
    match step
    case BeginOp(t) => BeginOpGood(L, s, s', t);
    case Bread(t, b) => BreadGood(L, s, s', t, b);
    case Modify(t, b, v) => ModifyGood(L, s, s', t, b, v);
    case LogWrite(t, b) => LogWriteGood(L, s, s', t, b);
    case Brelse(t, b) => BrelseGood(L, s, s', t, b);
    case EndOp(t) => EndOpGood(L, s, s', t);
    case Evict(b) => EvictGood(L, s, s', b);
    case WriteLogBlock => WriteLogBlockGood(L, s, s');
    case WriteHeader => WriteHeaderGood(L, s, s');
    case InstallBlock => InstallBlockGood(L, s, s');
    case EraseHeader => EraseHeaderGood(L, s, s');
    case FinishCommit => FinishCommitGood(L, s, s');
    case Crash => CrashGood(L, s, s');
    case ReadHead => ReadHeadGood(L, s, s');
    case ReplayBlock => ReplayBlockGood(L, s, s');
    case ReplayErase => ReplayEraseGood(L, s, s');
  }

  lemma InitGood(L: Layout, s: State)
    requires Init(L, s)
    ensures Inv(L, s)
  {
    NoOps(s.ops);
  }
}
