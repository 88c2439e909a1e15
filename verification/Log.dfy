/** The code of kernel/log.c as one thread runs it over the buffer cache, while others may hold buffers to read them:
    writing the log, the header, installing, committing, recovering. A crash after any block write leaves one of the
    disks that the cache's trace records. */
module Log {
  import opened Collections
  import opened Params
  import opened LogLayout
  import opened CacheModel
  import opened BufferCache

  // ---------------------------------------------------------------- what the loops keep

  /** Nobody is reading a log block or a logged block: bread of those does not sleep. */
  ghost predicate Elsewhere(L: Layout, lh: seq<nat>, r: set<nat>) {
    forall n | n in r :: !L.InLog(n) && n !in lh
  }

  /** The home blocks currently hold what they held at the start. */
  ghost predicate SameHome(L: Layout, bs0: seq<Buf>, disk0: Disk, bs: seq<Buf>, disk: Disk) {
    && disk.Keys == disk0.Keys
    && forall m | m in disk0 && !L.InLog(m) :: Current(bs, disk, m) == Current(bs0, disk0, m)
  }

  /** The first k log blocks hold the starting contents of the blocks they stand for. */
  ghost predicate LoggedUpTo(L: Layout, lh: seq<nat>, bs0: seq<Buf>, disk0: Disk, disk: Disk, k: nat)
    requires Loggable(L, disk0, lh) && k <= |lh|
  {
    forall i: nat | i < k :: L.Slot(i) in disk && disk[L.Slot(i)] == Current(bs0, disk0, lh[i])
  }

  /** Recovery of this disk ends with d in the home blocks. */
  ghost predicate RecoversTo(L: Layout, disk: Disk, d: Disk) {
    Recoverable(L, disk) && Durable(L, disk) == d
  }

  /** Every disk recorded from index a on recovers to d. */
  ghost predicate AllRecoverTo(L: Layout, trace: seq<Disk>, a: nat, d: Disk) {
    forall k {:trigger RecoversTo(L, trace[k], d)} | a <= k < |trace| :: RecoversTo(L, trace[k], d)
  }

  /** Where write_log is after k rounds: nothing durable has changed, on any disk it has left behind. */
  ghost predicate LogProgress(L: Layout, lh: seq<nat>, bs0: seq<Buf>, disk0: Disk, trace0: seq<Disk>, bs: seq<Buf>,
                              disk: Disk, trace: seq<Disk>, k: nat) {
    && Recoverable(L, disk0) && Loggable(L, disk0, lh) && k <= |lh|
    && Recoverable(L, disk) && HeaderIs(L, disk, []) && Durable(L, disk) == Durable(L, disk0)
    && SameHome(L, bs0, disk0, bs, disk) && LoggedUpTo(L, lh, bs0, disk0, disk, k)
    && trace0 <= trace && |trace| == |trace0| + k
    && AllRecoverTo(L, trace, |trace0|, Durable(L, disk0))
  }

  lemma LogRound(L: Layout, lh: seq<nat>, bs0: seq<Buf>, disk0: Disk, trace0: seq<Disk>, bs: seq<Buf>, disk: Disk,
                 trace: seq<Disk>, k: nat, bs': seq<Buf>, disk': Disk)
    requires k < |lh|
    requires LogProgress(L, lh, bs0, disk0, trace0, bs, disk, trace, k)
    requires CopiedOver(bs, disk, bs', disk', lh[k], L.Slot(k))
    ensures LogProgress(L, lh, bs0, disk0, trace0, bs', disk', trace + [disk'], k + 1)
  {
    SlotWritten(L, disk, k, Current(bs, disk, lh[k]));
    assert LoggedUpTo(L, lh, bs0, disk0, disk', k + 1);
    assert SameHome(L, bs0, disk0, bs', disk');
  }

  /** Where install_trans is after k rounds: recovery would still end in the same place. */
  ghost predicate InstallProgress(L: Layout, lh: seq<nat>, disk0: Disk, trace0: seq<Disk>, disk: Disk, trace: seq<Disk>,
                                  k: nat) {
    && Recoverable(L, disk0) && Loggable(L, disk0, lh) && k <= |lh|
    && Recoverable(L, disk) && HeaderIs(L, disk, lh) && Durable(L, disk) == Durable(L, disk0)
    && disk.Keys == disk0.Keys && Loggable(L, disk, lh) && Installed(L, disk, lh, k)
    && trace0 <= trace && |trace| == |trace0| + k
    && AllRecoverTo(L, trace, |trace0|, Durable(L, disk0))
  }

  lemma InstallRound(L: Layout, lh: seq<nat>, disk0: Disk, trace0: seq<Disk>, disk: Disk, trace: seq<Disk>, k: nat,
                     disk': Disk)
    requires k < |lh|
    requires InstallProgress(L, lh, disk0, trace0, disk, trace, k)
    requires L.Slot(k) in disk && disk' == disk[lh[k] := disk[L.Slot(k)]]
    ensures InstallProgress(L, lh, disk0, trace0, disk', trace + [disk'], k + 1)
  {
    InstallInvisible(L, disk, lh, k);
    InstallExtends(L, disk, lh, k);
  }

  /** What is pinned once k of the logged blocks are installed. */
  ghost function StillToInstall(lh: seq<nat>, k: nat, recovering: bool): (p: seq<nat>)
    requires k <= |lh|
  {
    if recovering then [] else lh[k..]
  }

  lemma OneInstalled(lh: seq<nat>, k: nat, recovering: bool)
    requires Distinct(lh) && k < |lh|
    ensures if recovering then StillToInstall(lh, k + 1, recovering) == StillToInstall(lh, k, recovering)
            else Dropped(StillToInstall(lh, k, recovering), lh[k], StillToInstall(lh, k + 1, recovering))
    ensures forall m | m in StillToInstall(lh, k, recovering) :: m in lh
  {
    assert lh[k..] == [lh[k]] + lh[k + 1..];
  }

  /** The home blocks as bread returns them. */
  ghost function HomeView(L: Layout, bs: seq<Buf>, disk: Disk): (d: Disk) {
    map m | m in disk && !L.InLog(m) :: Current(bs, disk, m)
  }

  /** Every block that is not pinned reads as it is on disk. */
  lemma CleanBlocks(bs: seq<Buf>, refs: seq<multiset<nat>>, pins: seq<nat>, disk: Disk, p: seq<nat>, r: set<nat>)
    requires BufsOk(bs, refs, pins, disk) && Quiet(bs, pins, disk, p, r)
    ensures forall m | m in disk && m !in p :: Current(bs, disk, m) == disk[m]
  {
    forall m | m in disk && m !in p
      ensures Current(bs, disk, m) == disk[m]
    {
      CleanIsDisk(bs, refs, pins, disk, p, r, m);
    }
  }

  lemma QuietViewIsDisk(L: Layout, bs: seq<Buf>, refs: seq<multiset<nat>>, pins: seq<nat>, disk: Disk, r: set<nat>)
    requires BufsOk(bs, refs, pins, disk) && Quiet(bs, pins, disk, [], r) && Recoverable(L, disk)
             && HeaderIs(L, disk, [])
    ensures HomeView(L, bs, disk) == Durable(L, disk) == map m | m in disk && !L.InLog(m) :: disk[m]
  {
    EmptyHeaderIsHome(L, disk);
    CleanBlocks(bs, refs, pins, disk, [], r);
  }

  /** The contents of home block m once the header naming lh is on disk. */
  lemma PublishedAt(L: Layout, lh: seq<nat>, bs0: seq<Buf>, disk0: Disk, disk1: Disk, data: Block, m: nat)
    requires HasLog(L, disk1) && Loggable(L, disk0, lh) && Loggable(L, disk1, lh) && disk1.Keys == disk0.Keys
    requires LoggedUpTo(L, lh, bs0, disk0, disk1, |lh|) && m in disk0 && !L.InLog(m)
    requires m !in lh ==> disk1[m] == Current(bs0, disk0, m)
    ensures Recoverable(L, disk1[L.start := EncodeHeader(data, lh)])
    ensures DurableAt(L, disk1[L.start := EncodeHeader(data, lh)], m) == Current(bs0, disk0, m)
  {
    HeaderCommits(L, disk1, data, lh, m);
  }

  /** Two disks without a committed transaction that recover to the same contents have the same home blocks. */
  lemma SameHomeBlocks(L: Layout, disk0: Disk, disk1: Disk, m: nat)
    requires Recoverable(L, disk0) && HeaderIs(L, disk0, []) && Recoverable(L, disk1) && HeaderIs(L, disk1, [])
    requires Durable(L, disk1) == Durable(L, disk0) && m in disk0 && m in disk1 && !L.InLog(m)
    ensures disk1[m] == disk0[m]
  {
    EmptyHeaderIsHome(L, disk0);
    EmptyHeaderIsHome(L, disk1);
    assert Durable(L, disk1)[m] == Durable(L, disk0)[m];
  }

  /** Writing the header after write_log commits exactly what bread returned when commit began. */
  lemma HeaderPublishes(L: Layout, lh: seq<nat>, bs0: seq<Buf>, disk0: Disk, disk1: Disk, data: Block)
    requires forall m | m in disk0 && m !in lh :: Current(bs0, disk0, m) == disk0[m]
    requires Recoverable(L, disk0) && HeaderIs(L, disk0, []) && Loggable(L, disk0, lh)
    requires Recoverable(L, disk1) && HeaderIs(L, disk1, []) && Durable(L, disk1) == Durable(L, disk0)
    requires disk1.Keys == disk0.Keys && LoggedUpTo(L, lh, bs0, disk0, disk1, |lh|)
    ensures var disk2 := disk1[L.start := EncodeHeader(data, lh)];
            && Recoverable(L, disk2) && HeaderIs(L, disk2, lh) && Loggable(L, disk2, lh)
            && Durable(L, disk2) == HomeView(L, bs0, disk0)
  {
    HeaderWritten(L, disk1, data, lh);
    forall m | m in disk0 && !L.InLog(m)
      ensures DurableAt(L, disk1[L.start := EncodeHeader(data, lh)], m) == Current(bs0, disk0, m)
    {
      SameHomeBlocks(L, disk0, disk1, m);
      PublishedAt(L, lh, bs0, disk0, disk1, data, m);
    }
  }

  /** The disks a commit leaves behind: its first n writes recover to d0, all later ones to v. */
  ghost predicate CommitTrace(L: Layout, trace0: seq<Disk>, trace: seq<Disk>, n: nat, d0: Disk, v: Disk) {
    && trace0 <= trace
    && (forall k {:trigger RecoversTo(L, trace[k], d0)} | |trace0| <= k < |trace| && k < |trace0| + n :: RecoversTo(L, trace[k], d0))
    && (forall k {:trigger RecoversTo(L, trace[k], v)} | |trace0| + n <= k < |trace| :: RecoversTo(L, trace[k], v))
  }

  lemma BeforeHeader(L: Layout, trace0: seq<Disk>, trace: seq<Disk>, n: nat, d0: Disk, v: Disk)
    requires trace0 <= trace && |trace| <= |trace0| + n && AllRecoverTo(L, trace, |trace0|, d0)
    ensures CommitTrace(L, trace0, trace, n, d0, v)
  {
  }

  lemma AfterHeader(L: Layout, trace0: seq<Disk>, trace1: seq<Disk>, trace: seq<Disk>, n: nat, d0: Disk, v: Disk)
    requires CommitTrace(L, trace0, trace1, n, d0, v) && |trace1| >= |trace0| + n
    requires trace1 <= trace && AllRecoverTo(L, trace, |trace1|, v)
    ensures CommitTrace(L, trace0, trace, n, d0, v)
  {
  }

  lemma TraceJoins(L: Layout, trace0: seq<Disk>, trace1: seq<Disk>, trace: seq<Disk>, d: Disk)
    requires trace0 <= trace1 <= trace && AllRecoverTo(L, trace1, |trace0|, d) && AllRecoverTo(L, trace, |trace1|, d)
    ensures AllRecoverTo(L, trace, |trace0|, d)
  {
  }

  class Log {
    const L: Layout
    const cache: Cache
    var lh: seq<nat>          // lh.block[..lh.n]
    var outstanding: int
    var committing: bool

    constructor (L: Layout, cache: Cache)
      ensures this.L == L && this.cache == cache && lh == [] && outstanding == 0 && !committing
    {
      this.L, this.cache := L, cache;
      lh, outstanding, committing := [], 0, false;
    }

    /** bread of a block that nobody is reading. */
    method BreadFree(t: nat, n: nat, ghost p: seq<nat>, ghost r: set<nat>) returns (ok: bool, b: nat)
      requires cache.Valid() && Quiet(cache.buf, cache.pins, cache.disk, p, r) && n in cache.disk && n !in r
      modifies cache`buf, cache`refs
      ensures cache.Valid() && SameBlocks(old(cache.buf), old(cache.disk), cache.buf, cache.disk)
      ensures ok ==> && OneHeld(cache.buf, cache.pins, cache.disk, p, r, t, n, b)
                     && ReadBy(old(cache.buf), cache.pins, cache.disk, n, t, b, cache.buf)
      ensures !ok ==> NoBuffers(cache.buf)
    {
      FreeToRead(cache.buf, cache.disk, r, {}, n);
      ok, b := cache.Bread(t, n);
      if ok { FirstRead(old(cache.buf), old(cache.refs), cache.pins, cache.disk, p, r, t, n, b, cache.buf); }
    }

    /** bread of a second block by a thread that has just read n1, when the cache was bs0. */
    method BreadSecond(t: nat, n1: nat, b1: nat, n2: nat, ghost p: seq<nat>, ghost r: set<nat>, ghost bs0: seq<Buf>)
      returns (ok: bool, b2: nat)
      requires cache.Valid() && OneHeld(cache.buf, cache.pins, cache.disk, p, r, t, n1, b1)
      requires SameBlocks(bs0, cache.disk, cache.buf, cache.disk)
               && ReadBy(bs0, cache.pins, cache.disk, n1, t, b1, cache.buf)
      requires n2 in cache.disk && n1 != n2 && n2 !in r
      modifies cache`buf, cache`refs
      ensures cache.Valid() && SameBlocks(bs0, cache.disk, cache.buf, cache.disk)
      ensures ok ==> && TwoHeld(cache.buf, cache.pins, cache.disk, p, r, t, n1, b1, n2, b2)
                     && ReadTwo(bs0, cache.pins, cache.disk, n1, n2, t, Round(b1, old(cache.buf), b2, cache.buf))
      ensures !ok ==> NoBuffers(cache.buf)
    {
      FreeToRead(cache.buf, cache.disk, r, {b1}, n2);
      ok, b2 := cache.Bread(t, n2);
      SameBlocksTrans(bs0, old(cache.buf), cache.buf, cache.disk);
      if ok { SecondRead(old(cache.buf), old(cache.refs), cache.pins, cache.disk, p, r, t, n1, b1, n2, b2, cache.buf); }
    }

    /** bread of two different blocks, the way write_log and install_trans begin each round. */
    method BreadTwo(t: nat, n1: nat, n2: nat, ghost p: seq<nat>, ghost r: set<nat>)
      returns (ok: bool, b1: nat, b2: nat, ghost k: Round)
      requires cache.Valid() && Quiet(cache.buf, cache.pins, cache.disk, p, r)
      requires n1 in cache.disk && n2 in cache.disk && n1 != n2 && n1 !in r && n2 !in r
      modifies cache`buf, cache`refs
      ensures SameBlocks(old(cache.buf), old(cache.disk), cache.buf, cache.disk)
      ensures cache.Valid()
      ensures ok ==> TwoHeld(cache.buf, cache.pins, cache.disk, p, r, t, n1, b1, n2, b2)
      ensures ok ==> && k == Round(b1, k.bs1, b2, cache.buf)
                     && ReadTwo(old(cache.buf), cache.pins, cache.disk, n1, n2, t, k)
      ensures !ok ==> NoBuffers(cache.buf)
    {
      b2, k := 0, Round(0, [], 0, []);
      ok, b1 := BreadFree(t, n1, p, r);
      if !ok { return; }
      ghost var bs1 := cache.buf;
      ok, b2 := BreadSecond(t, n1, b1, n2, p, r, old(cache.buf));
      k := Round(b1, bs1, b2, cache.buf);
    }

    /** memmove from buffer b1 to buffer b2, bwrite b2: one disk write. */
    method CopyOut(t: nat, n1: nat, b1: nat, n2: nat, b2: nat, ghost p: seq<nat>, ghost r: set<nat>)
      requires cache.Valid() && TwoHeld(cache.buf, cache.pins, cache.disk, p, r, t, n1, b1, n2, b2)
      modifies cache`buf, cache`disk, cache`trace
      ensures cache.Valid() && TwoHeld(cache.buf, cache.pins, cache.disk, p, r, t, n1, b1, n2, b2)
      ensures Copied(old(cache.buf), cache.pins, old(cache.disk), b1, b2, false, cache.buf, cache.pins, cache.disk)
      ensures cache.trace == old(cache.trace) + [cache.disk]
    {
      CopiedOut(cache.buf, cache.pins, cache.disk, p, r, t, n1, b1, n2, b2,
                cache.buf[b2 := cache.buf[b2].(data := cache.buf[b1].data)], cache.disk[n2 := cache.buf[b1].data]);
      cache.Store(t, b2, cache.buf[b1].data);
      cache.Bwrite(t, b2);
    }

    /** bunpin of the destination that has just been written. */
    method UnpinDestination(t: nat, n1: nat, b1: nat, n2: nat, b2: nat, ghost p: seq<nat>, ghost p': seq<nat>,
                            ghost r: set<nat>, ghost bs0: seq<Buf>, ghost pins0: seq<nat>, ghost disk0: Disk)
      requires cache.Valid() && TwoHeld(cache.buf, cache.pins, cache.disk, p, r, t, n1, b1, n2, b2)
               && Dropped(p, n2, p')
      requires Copied(bs0, pins0, disk0, b1, b2, false, cache.buf, cache.pins, cache.disk)
      modifies cache`buf, cache`pins
      ensures cache.Valid() && TwoHeld(cache.buf, cache.pins, cache.disk, p', r, t, n1, b1, n2, b2)
      ensures Copied(bs0, pins0, disk0, b1, b2, true, cache.buf, cache.pins, cache.disk)
    {
      DestinationPinned(cache.buf, cache.pins, cache.disk, p, t, n2, b2);
      cache.Bunpin(t, b2);
      DestinationUnpinned(old(cache.buf), old(cache.pins), cache.disk, p, r, t, n1, b1, n2, b2, p', cache.buf);
    }

    method ReleaseLast(t: nat, n: nat, b: nat, ghost p: seq<nat>, ghost r: set<nat>)
      requires cache.Valid() && OneHeld(cache.buf, cache.pins, cache.disk, p, r, t, n, b)
      modifies cache`buf, cache`refs, cache`order, cache`prev, cache`next, cache`stamp, cache`clock
      ensures cache.Valid() && Quiet(cache.buf, cache.pins, cache.disk, p, r)
              && ReleasedAt(old(cache.buf), b, cache.buf)
      ensures SameBlocks(old(cache.buf), old(cache.disk), cache.buf, cache.disk)
    {
      LastReleased(cache.buf, cache.refs, cache.pins, cache.disk, p, r, t, n, b);
      cache.Brelse(t, b);
    }

    method ReleaseFirst(t: nat, n1: nat, b1: nat, n2: nat, b2: nat, ghost p: seq<nat>, ghost r: set<nat>)
      requires cache.Valid() && TwoHeld(cache.buf, cache.pins, cache.disk, p, r, t, n1, b1, n2, b2)
      modifies cache`buf, cache`refs, cache`order, cache`prev, cache`next, cache`stamp, cache`clock
      ensures cache.Valid() && OneHeld(cache.buf, cache.pins, cache.disk, p, r, t, n2, b2)
      ensures ReleasedAt(old(cache.buf), b1, cache.buf)
    {
      FirstReleased(cache.buf, cache.refs, cache.pins, cache.disk, p, r, t, n1, b1, n2, b2);
      cache.Brelse(t, b1);
    }

    /** brelse of both buffers, the one copied from first. */
    method ReleaseTwo(t: nat, n1: nat, b1: nat, n2: nat, b2: nat, ghost unpin: bool, ghost p: seq<nat>,
                      ghost r: set<nat>, ghost bs0: seq<Buf>, ghost pins0: seq<nat>, ghost disk0: Disk)
      requires cache.Valid() && TwoHeld(cache.buf, cache.pins, cache.disk, p, r, t, n1, b1, n2, b2)
      requires Copied(bs0, pins0, disk0, b1, b2, unpin, cache.buf, cache.pins, cache.disk)
      modifies cache`buf, cache`refs, cache`order, cache`prev, cache`next, cache`stamp, cache`clock
      ensures cache.Valid() && Quiet(cache.buf, cache.pins, cache.disk, p, r)
      ensures RoundLeft(bs0, pins0, disk0, b1, b2, unpin, cache.buf, cache.pins, cache.disk)
    {
      ReleaseFirst(t, n1, b1, n2, b2, p, r);
      ghost var bs1 := cache.buf;
      ReleaseLast(t, n2, b2, p, r);
      RoundEnds(bs0, pins0, disk0, b1, b2, unpin, old(cache.buf), cache.pins, cache.disk, bs1, cache.buf);
    }

    /** memmove, bwrite, brelse of the source, brelse of the destination. */
    method CopyAndRelease(t: nat, n1: nat, b1: nat, n2: nat, b2: nat, ghost p: seq<nat>, ghost r: set<nat>)
      requires cache.Valid() && TwoHeld(cache.buf, cache.pins, cache.disk, p, r, t, n1, b1, n2, b2)
      modifies cache
      ensures cache.Valid() && Quiet(cache.buf, cache.pins, cache.disk, p, r)
      ensures RoundLeft(old(cache.buf), old(cache.pins), old(cache.disk), b1, b2, false,
                        cache.buf, cache.pins, cache.disk)
      ensures cache.trace == old(cache.trace) + [cache.disk]
    {
      ghost var bs0, pins0, disk0 := cache.buf, cache.pins, cache.disk;
      CopyOut(t, n1, b1, n2, b2, p, r);
      ReleaseTwo(t, n1, b1, n2, b2, false, p, r, bs0, pins0, disk0);
    }

    /** One round of write_log. */
    method LogOne(t: nat, from: nat, to: nat, ghost r: set<nat>) returns (ok: bool, ghost k: Round)
      requires cache.Valid() && Quiet(cache.buf, cache.pins, cache.disk, lh, r)
      requires from in cache.disk && to in cache.disk && from != to && from !in r && to !in r
      modifies cache
      ensures ok ==> && cache.Valid() && Quiet(cache.buf, cache.pins, cache.disk, lh, r)
                     && CopiedOver(old(cache.buf), old(cache.disk), cache.buf, cache.disk, from, to)
                     && cache.trace == old(cache.trace) + [cache.disk]
      ensures ok ==> && ReadTwo(old(cache.buf), old(cache.pins), old(cache.disk), to, from, t, k)
                     && RoundLeft(k.bs2, old(cache.pins), old(cache.disk), k.b2, k.b1, false,
                                  cache.buf, cache.pins, cache.disk)
      ensures !ok ==> cache.trace == old(cache.trace) && cache.disk == old(cache.disk) && NoBuffers(cache.buf)
    {
      var bto, bfrom;
      ok, bto, bfrom, k := BreadTwo(t, to, from, lh, r);
      if !ok { return; }
      TwoHeldSwap(cache.buf, cache.pins, cache.disk, lh, r, t, to, bto, from, bfrom);
      CopyAndRelease(t, from, bfrom, to, bto, lh, r);
      RoundCopied(old(cache.buf), k.bs2, cache.pins, old(cache.disk), bfrom, bto, false,
                  cache.buf, cache.pins, cache.disk, from, to);
    }

    method LogNext(t: nat, tail: nat, ghost bs0: seq<Buf>, ghost disk0: Disk, ghost trace0: seq<Disk>,
                   ghost r: set<nat>) returns (ok: bool)
      requires tail < |lh|
      requires cache.Valid() && Quiet(cache.buf, cache.pins, cache.disk, lh, r) && Elsewhere(L, lh, r)
      requires LogProgress(L, lh, bs0, disk0, trace0, cache.buf, cache.disk, cache.trace, tail)
      modifies cache
      ensures ok ==> && cache.Valid() && Quiet(cache.buf, cache.pins, cache.disk, lh, r)
                     && LogProgress(L, lh, bs0, disk0, trace0, cache.buf, cache.disk, cache.trace, tail + 1)
      ensures !ok ==> cache.trace == old(cache.trace) && cache.disk == old(cache.disk) && NoBuffers(cache.buf)
    {
      assert lh[tail] in disk0 && L.InLog(L.Slot(tail));
      ghost var k;
      ok, k := LogOne(t, lh[tail], L.Slot(tail), r);
      if !ok { return; }
      LogRound(L, lh, bs0, disk0, trace0, old(cache.buf), old(cache.disk), old(cache.trace), tail, cache.buf, cache.disk);
    }

    /** write_log: copies every logged block from the cache to the log; nothing durable changes. */
    method WriteLog(t: nat, ghost r: set<nat>) returns (ok: bool)
      requires cache.Valid() && Quiet(cache.buf, cache.pins, cache.disk, lh, r) && Elsewhere(L, lh, r)
      requires Recoverable(L, cache.disk) && HeaderIs(L, cache.disk, []) && Loggable(L, cache.disk, lh)
      modifies cache
      ensures old(cache.trace) <= cache.trace && |cache.trace| <= |old(cache.trace)| + |lh|
      ensures AllRecoverTo(L, cache.trace, |old(cache.trace)|, Durable(L, old(cache.disk)))
      ensures ok ==> && cache.Valid() && Quiet(cache.buf, cache.pins, cache.disk, lh, r)
                     && LogProgress(L, lh, old(cache.buf), old(cache.disk), old(cache.trace),
                                    cache.buf, cache.disk, cache.trace, |lh|)
      ensures !ok ==> NoBuffers(cache.buf)
    {
      var tail := 0;
      while tail < |lh|
        invariant tail <= |lh| && cache.Valid() && Quiet(cache.buf, cache.pins, cache.disk, lh, r)
        invariant LogProgress(L, lh, old(cache.buf), old(cache.disk), old(cache.trace),
                              cache.buf, cache.disk, cache.trace, tail)
      {
        ok := LogNext(t, tail, old(cache.buf), old(cache.disk), old(cache.trace), r);
        if !ok { return; }
        tail := tail + 1;
      }
      ok := true;
    }

    /** The header fields written into a buffer's data. */
    method FormatHeader(data: Block) returns (h: Block)
      requires |lh| <= LOGSIZE
      ensures h == EncodeHeader(data, lh)
    {
      h := data[0 := |lh|];
      var i := 0;
      while i < |lh|
        invariant i <= |lh| && h == [|lh|] + lh[..i] + data[1 + i..]
      {
        h := h[1 + i := lh[i]];
        i := i + 1;
      }
    }

    /** Stores v in the held buffer and writes it out. */
    method WriteOut(t: nat, n: nat, b: nat, v: Block, ghost p: seq<nat>, ghost r: set<nat>)
      requires cache.Valid() && OneHeld(cache.buf, cache.pins, cache.disk, p, r, t, n, b)
      modifies cache`buf, cache`disk, cache`trace
      ensures cache.Valid() && OneHeld(cache.buf, cache.pins, cache.disk, p, r, t, n, b)
      ensures cache.buf == old(cache.buf)[b := old(cache.buf)[b].(data := v)] && cache.disk == old(cache.disk)[n := v]
      ensures cache.trace == old(cache.trace) + [cache.disk]
    {
      StoredHeld(cache.buf, cache.pins, cache.disk, p, r, t, n, b, v);
      cache.Store(t, b, v);
      cache.Bwrite(t, b);
    }

    /** The same, and brelse, by a thread that has just read n, when the cache was bs0. */
    method WriteAndRelease(t: nat, n: nat, b: nat, v: Block, ghost p: seq<nat>, ghost r: set<nat>, ghost bs0: seq<Buf>)
      requires cache.Valid() && OneHeld(cache.buf, cache.pins, cache.disk, p, r, t, n, b)
      requires ReadBy(bs0, cache.pins, cache.disk, n, t, b, cache.buf)
      modifies cache
      ensures cache.Valid() && Quiet(cache.buf, cache.pins, cache.disk, p, r) && cache.pins == old(cache.pins)
      ensures PutDone(bs0, cache.pins, old(cache.disk), n, t, v, b, old(cache.buf), cache.buf, cache.disk)
      ensures cache.trace == old(cache.trace) + [cache.disk]
    {
      WriteOut(t, n, b, v, p, r);
      ReleaseLast(t, n, b, p, r);
    }

    /** write_head. b is the buffer it used, bs1 the cache after bread and data what the header block held. */
    method WriteHead(t: nat, ghost p: seq<nat>, ghost r: set<nat>)
      returns (ok: bool, ghost data: Block, ghost b: nat, ghost bs1: seq<Buf>)
      requires cache.Valid() && Quiet(cache.buf, cache.pins, cache.disk, p, r) && L.start in cache.disk
               && |lh| <= LOGSIZE && L.start !in r
      modifies cache
      ensures ok ==> && cache.Valid() && Quiet(cache.buf, cache.pins, cache.disk, p, r) && cache.pins == old(cache.pins)
                     && Overwritten(old(cache.buf), old(cache.disk), cache.buf, cache.disk, L.start, EncodeHeader(data, lh))
                     && cache.trace == old(cache.trace) + [cache.disk]
      ensures ok ==> && data == Current(old(cache.buf), old(cache.disk), L.start)
                     && PutDone(old(cache.buf), cache.pins, old(cache.disk), L.start, t, EncodeHeader(data, lh), b, bs1,
                                cache.buf, cache.disk)
      ensures !ok ==> cache.trace == old(cache.trace) && cache.disk == old(cache.disk) && NoBuffers(cache.buf)
    {
      data := seq(WORDS, _ => 0);
      var hbuf;
      ok, hbuf := BreadFree(t, L.start, p, r);
      b, bs1 := hbuf, cache.buf;
      if !ok { return; }
      data := cache.buf[hbuf].data;
      var h := FormatHeader(cache.buf[hbuf].data);
      WriteAndRelease(t, L.start, hbuf, h, p, r, old(cache.buf));
      PutOverwrites(old(cache.buf), cache.pins, old(cache.disk), L.start, t, h, b, bs1, cache.buf, cache.disk);
    }

    /** bunpin unless recovering, brelse of both. */
    method UnpinAndRelease(t: nat, n1: nat, b1: nat, n2: nat, b2: nat, recovering: bool, ghost p: seq<nat>,
                           ghost p': seq<nat>, ghost r: set<nat>, ghost bs0: seq<Buf>, ghost pins0: seq<nat>,
                           ghost disk0: Disk)
      requires cache.Valid() && TwoHeld(cache.buf, cache.pins, cache.disk, p, r, t, n1, b1, n2, b2)
      requires Copied(bs0, pins0, disk0, b1, b2, false, cache.buf, cache.pins, cache.disk)
      requires if recovering then p' == p else Dropped(p, n2, p')
      modifies cache`buf, cache`pins, cache`refs, cache`order, cache`prev, cache`next, cache`stamp, cache`clock
      ensures cache.Valid() && Quiet(cache.buf, cache.pins, cache.disk, p', r)
      ensures RoundLeft(bs0, pins0, disk0, b1, b2, !recovering, cache.buf, cache.pins, cache.disk)
    {
      if !recovering {
        UnpinDestination(t, n1, b1, n2, b2, p, p', r, bs0, pins0, disk0);
      }
      ReleaseTwo(t, n1, b1, n2, b2, !recovering, p', r, bs0, pins0, disk0);
    }

    /** memmove, bwrite, bunpin unless recovering, brelse of both. */
    method InstallAndRelease(t: nat, n1: nat, b1: nat, n2: nat, b2: nat, recovering: bool, ghost p: seq<nat>,
                             ghost p': seq<nat>, ghost r: set<nat>)
      requires cache.Valid() && TwoHeld(cache.buf, cache.pins, cache.disk, p, r, t, n1, b1, n2, b2)
      requires if recovering then p' == p else Dropped(p, n2, p')
      modifies cache
      ensures cache.Valid() && Quiet(cache.buf, cache.pins, cache.disk, p', r)
      ensures RoundLeft(old(cache.buf), old(cache.pins), old(cache.disk), b1, b2, !recovering,
                        cache.buf, cache.pins, cache.disk)
      ensures cache.trace == old(cache.trace) + [cache.disk]
    {
      ghost var bs0, pins0, disk0 := cache.buf, cache.pins, cache.disk;
      CopyOut(t, n1, b1, n2, b2, p, r);
      UnpinAndRelease(t, n1, b1, n2, b2, recovering, p, p', r, bs0, pins0, disk0);
    }

    /** One round of install_trans. */
    method InstallOne(t: nat, src: nat, dst: nat, recovering: bool, ghost p: seq<nat>, ghost p': seq<nat>,
                      ghost r: set<nat>) returns (ok: bool, ghost k: Round)
      requires cache.Valid() && Quiet(cache.buf, cache.pins, cache.disk, p, r)
      requires src in cache.disk && dst in cache.disk && src != dst && src !in r && dst !in r
      requires if recovering then p' == p else Dropped(p, dst, p')
      modifies cache
      ensures ok ==> && cache.Valid() && Quiet(cache.buf, cache.pins, cache.disk, p', r)
                     && cache.disk == old(cache.disk)[dst := Current(old(cache.buf), old(cache.disk), src)]
                     && cache.trace == old(cache.trace) + [cache.disk]
      ensures ok ==> && ReadTwo(old(cache.buf), old(cache.pins), old(cache.disk), src, dst, t, k)
                     && RoundLeft(k.bs2, old(cache.pins), old(cache.disk), k.b1, k.b2, !recovering,
                                  cache.buf, cache.pins, cache.disk)
      ensures !ok ==> cache.trace == old(cache.trace) && cache.disk == old(cache.disk) && NoBuffers(cache.buf)
    {
      var lbuf, dbuf;
      ok, lbuf, dbuf, k := BreadTwo(t, src, dst, p, r);
      if !ok { return; }
      InstallAndRelease(t, src, lbuf, dst, dbuf, recovering, p, p', r);
      RoundCopied(old(cache.buf), k.bs2, old(cache.pins), old(cache.disk), lbuf, dbuf, !recovering,
                  cache.buf, cache.pins, cache.disk, src, dst);
    }

    method InstallNext(t: nat, recovering: bool, tail: nat, ghost disk0: Disk, ghost trace0: seq<Disk>,
                       ghost r: set<nat>) returns (ok: bool)
      requires tail < |lh|
      requires cache.Valid() && Quiet(cache.buf, cache.pins, cache.disk, StillToInstall(lh, tail, recovering), r)
               && Elsewhere(L, lh, r)
      requires InstallProgress(L, lh, disk0, trace0, cache.disk, cache.trace, tail)
      modifies cache
      ensures ok ==> && cache.Valid() && Quiet(cache.buf, cache.pins, cache.disk, StillToInstall(lh, tail + 1, recovering), r)
                     && InstallProgress(L, lh, disk0, trace0, cache.disk, cache.trace, tail + 1)
      ensures !ok ==> cache.trace == old(cache.trace) && cache.disk == old(cache.disk) && NoBuffers(cache.buf)
    {
      OneInstalled(lh, tail, recovering);
      assert lh[tail] in disk0 && L.InLog(L.Slot(tail));
      ghost var p, p' := StillToInstall(lh, tail, recovering), StillToInstall(lh, tail + 1, recovering);
      CleanIsDisk(cache.buf, cache.refs, cache.pins, cache.disk, p, r, L.Slot(tail));
      ghost var k;
      ok, k := InstallOne(t, L.Slot(tail), lh[tail], recovering, p, p', r);
      if !ok { return; }
      InstallRound(L, lh, disk0, trace0, old(cache.disk), old(cache.trace), tail, cache.disk);
    }

    /** install_trans: copies every log block home; recovery would end in the same place throughout. */
    method InstallTrans(t: nat, recovering: bool, ghost r: set<nat>) returns (ok: bool)
      requires cache.Valid() && Quiet(cache.buf, cache.pins, cache.disk, StillToInstall(lh, 0, recovering), r)
               && Elsewhere(L, lh, r)
      requires Recoverable(L, cache.disk) && HeaderIs(L, cache.disk, lh) && Loggable(L, cache.disk, lh)
      modifies cache
      ensures old(cache.trace) <= cache.trace
      ensures AllRecoverTo(L, cache.trace, |old(cache.trace)|, Durable(L, old(cache.disk)))
      ensures ok ==> && cache.Valid() && Quiet(cache.buf, cache.pins, cache.disk, [], r)
                     && InstallProgress(L, lh, old(cache.disk), old(cache.trace), cache.disk, cache.trace, |lh|)
      ensures !ok ==> NoBuffers(cache.buf)
    {
      var tail := 0;
      while tail < |lh|
        invariant tail <= |lh| && cache.Valid()
                  && Quiet(cache.buf, cache.pins, cache.disk, StillToInstall(lh, tail, recovering), r)
        invariant InstallProgress(L, lh, old(cache.disk), old(cache.trace), cache.disk, cache.trace, tail)
      {
        ok := InstallNext(t, recovering, tail, old(cache.disk), old(cache.trace), r);
        if !ok { return; }
        tail := tail + 1;
      }
      ok := true;
    }

    /** The tail of commit and of recovery: clear lh, write the empty header. */
    method EraseLog(t: nat, ghost r: set<nat>) returns (ok: bool)
      requires cache.Valid() && Quiet(cache.buf, cache.pins, cache.disk, [], r) && L.start !in r
      requires Recoverable(L, cache.disk) && HeaderIs(L, cache.disk, lh) && Loggable(L, cache.disk, lh)
      requires Installed(L, cache.disk, lh, |lh|)
      modifies this`lh, cache
      ensures old(cache.trace) <= cache.trace
      ensures AllRecoverTo(L, cache.trace, |old(cache.trace)|, Durable(L, old(cache.disk)))
      ensures ok ==> && cache.Valid() && Quiet(cache.buf, cache.pins, cache.disk, [], r) && lh == []
                     && Recoverable(L, cache.disk) && HeaderIs(L, cache.disk, [])
                     && Durable(L, cache.disk) == Durable(L, old(cache.disk))
      ensures !ok ==> NoBuffers(cache.buf)
    {
      ghost var was := lh;
      lh := [];
      ghost var data, b, bs1;
      ok, data, b, bs1 := WriteHead(t, [], r);
      if ok { EraseInvisible(L, old(cache.disk), data, was); }
    }

    /** The header write, once write_log is done: it commits what bread returned when commit began. */
    method CommitHeader(t: nat, ghost bs0: seq<Buf>, ghost disk0: Disk, ghost trace0: seq<Disk>, ghost r: set<nat>)
      returns (ok: bool)
      requires cache.Valid() && Quiet(cache.buf, cache.pins, cache.disk, lh, r) && Elsewhere(L, lh, r)
      requires LogProgress(L, lh, bs0, disk0, trace0, cache.buf, cache.disk, cache.trace, |lh|)
               && HeaderIs(L, disk0, [])
      requires forall m | m in disk0 && m !in lh :: Current(bs0, disk0, m) == disk0[m]
      modifies cache
      ensures ok ==> && cache.Valid() && Quiet(cache.buf, cache.pins, cache.disk, lh, r)
                     && RecoversTo(L, cache.disk, HomeView(L, bs0, disk0)) && HeaderIs(L, cache.disk, lh)
                     && Loggable(L, cache.disk, lh)
                     && cache.trace == old(cache.trace) + [cache.disk]
      ensures !ok ==> cache.trace == old(cache.trace) && NoBuffers(cache.buf)
    {
      ghost var disk1 := cache.disk;
      ghost var data, b, bs1;
      ok, data, b, bs1 := WriteHead(t, lh, r);
      if ok { HeaderPublishes(L, lh, bs0, disk0, disk1, data); }
    }

    /** The first half of commit: up to and including the header write. */
    method Publish(t: nat, ghost r: set<nat>) returns (ok: bool)
      requires cache.Valid() && Quiet(cache.buf, cache.pins, cache.disk, lh, r) && Elsewhere(L, lh, r)
      requires Recoverable(L, cache.disk) && HeaderIs(L, cache.disk, []) && Loggable(L, cache.disk, lh)
      modifies cache
      ensures CommitTrace(L, old(cache.trace), cache.trace, |lh|, Durable(L, old(cache.disk)), HomeView(L, old(cache.buf), old(cache.disk)))
      ensures ok ==> && cache.Valid() && Quiet(cache.buf, cache.pins, cache.disk, lh, r)
                     && Recoverable(L, cache.disk) && HeaderIs(L, cache.disk, lh) && Loggable(L, cache.disk, lh)
                     && Durable(L, cache.disk) == HomeView(L, old(cache.buf), old(cache.disk))
                     && |cache.trace| == |old(cache.trace)| + |lh| + 1
      ensures !ok ==> NoBuffers(cache.buf)
    {
      ghost var d0, v := Durable(L, cache.disk), HomeView(L, cache.buf, cache.disk);
      CleanBlocks(cache.buf, cache.refs, cache.pins, cache.disk, lh, r);
      ok := WriteLog(t, r);
      BeforeHeader(L, old(cache.trace), cache.trace, |lh|, d0, v);
      if !ok { return; }
      ghost var trace1 := cache.trace;
      ok := CommitHeader(t, old(cache.buf), old(cache.disk), old(cache.trace), r);
      if !ok { return; }
      AfterHeader(L, old(cache.trace), trace1, cache.trace, |lh|, d0, v);
    }

    /** The second half: install, then erase the log. Recovery ends in the same place throughout. */
    method Retire(t: nat, recovering: bool, ghost r: set<nat>) returns (ok: bool)
      requires cache.Valid() && Quiet(cache.buf, cache.pins, cache.disk, StillToInstall(lh, 0, recovering), r)
               && Elsewhere(L, lh, r)
      requires Recoverable(L, cache.disk) && HeaderIs(L, cache.disk, lh) && Loggable(L, cache.disk, lh)
      modifies this`lh, cache
      ensures old(cache.trace) <= cache.trace
      ensures AllRecoverTo(L, cache.trace, |old(cache.trace)|, Durable(L, old(cache.disk)))
      ensures ok ==> && cache.Valid() && Quiet(cache.buf, cache.pins, cache.disk, [], r) && lh == []
                     && Recoverable(L, cache.disk) && HeaderIs(L, cache.disk, [])
                     && Durable(L, cache.disk) == Durable(L, old(cache.disk))
      ensures !ok ==> NoBuffers(cache.buf)
    {
      ok := InstallTrans(t, recovering, r);
      if !ok { return; }
      ghost var trace1 := cache.trace;
      ok := EraseLog(t, r);
      TraceJoins(L, old(cache.trace), trace1, cache.trace, Durable(L, old(cache.disk)));
    }

    /** commit. A crash before the header write recovers to the old contents, a crash after it to
        everything the cache held; when it returns, the disk holds that and the log is empty. */
    method Commit(t: nat, ghost r: set<nat>) returns (ok: bool)
      requires committing
      requires cache.Valid() && Quiet(cache.buf, cache.pins, cache.disk, lh, r) && Elsewhere(L, lh, r)
      requires Recoverable(L, cache.disk) && HeaderIs(L, cache.disk, []) && Loggable(L, cache.disk, lh)
      modifies this`lh, cache
      ensures CommitTrace(L, old(cache.trace), cache.trace, |old(lh)|,
                          Durable(L, old(cache.disk)), HomeView(L, old(cache.buf), old(cache.disk)))
      ensures ok ==> && cache.Valid() && Quiet(cache.buf, cache.pins, cache.disk, [], r) && lh == []
                     && Recoverable(L, cache.disk) && HeaderIs(L, cache.disk, [])
                     && Durable(L, cache.disk) == HomeView(L, old(cache.buf), old(cache.disk))
                     && HomeView(L, cache.buf, cache.disk) == HomeView(L, old(cache.buf), old(cache.disk))
      ensures !ok ==> NoBuffers(cache.buf)
    {
      if |lh| == 0 {
        assert lh == [];
        QuietViewIsDisk(L, cache.buf, cache.refs, cache.pins, cache.disk, r);
        return true;
      }
      ghost var d0, v := Durable(L, cache.disk), HomeView(L, cache.buf, cache.disk);
      ok := Publish(t, r);
      if !ok { return; }
      ghost var trace1 := cache.trace;
      assert StillToInstall(lh, 0, false) == lh;
      ok := Retire(t, false, r);
      AfterHeader(L, old(cache.trace), trace1, cache.trace, |old(lh)|, d0, v);
      if ok { QuietViewIsDisk(L, cache.buf, cache.refs, cache.pins, cache.disk, r); }
    }

    /** The header's list, entry by entry. */
    method ParseHeader(h: Block) returns (blocks: seq<nat>)
      requires 0 <= HeaderCount(h) <= LOGSIZE && forall i | 0 <= i < HeaderCount(h) :: HeaderBlocks(h)[i] >= 0
      ensures blocks == HeaderBlocks(h)
    {
      blocks := [];
      var i := 0;
      while i < HeaderCount(h)
        invariant 0 <= i <= HeaderCount(h) && blocks == HeaderBlocks(h)[..i]
      {
        assert HeaderBlocks(h)[i] == h[1 + i];
        blocks := blocks + [h[1 + i]];
        i := i + 1;
      }
    }

    /** read_head. b is the buffer it used and bs1 the cache after bread. */
    method ReadHead(t: nat) returns (ok: bool, ghost b: nat, ghost bs1: seq<Buf>)
      requires cache.Valid() && Quiet(cache.buf, cache.pins, cache.disk, [], {}) && Recoverable(L, cache.disk)
      modifies this`lh, cache`buf, cache`refs, cache`order, cache`prev, cache`next, cache`stamp, cache`clock
      ensures ok ==> && cache.Valid() && Quiet(cache.buf, cache.pins, cache.disk, [], {})
                     && HeaderIs(L, cache.disk, lh) && Loggable(L, cache.disk, lh)
      ensures ok ==> && ReadBy(old(cache.buf), cache.pins, cache.disk, L.start, t, b, bs1) && Keys(bs1, cache.disk)
                     && bs1[b].data == cache.disk[L.start] && ReleasedAt(bs1, b, cache.buf)
      ensures !ok ==> NoBuffers(cache.buf)
    {
      CleanIsDisk(cache.buf, cache.refs, cache.pins, cache.disk, [], {}, L.start);
      var hbuf;
      ok, hbuf := BreadFree(t, L.start, [], {});
      b, bs1 := hbuf, cache.buf;
      if !ok { return; }
      lh := ParseHeader(cache.buf[hbuf].data);
      ReleaseLast(t, L.start, hbuf, [], {});
    }

    /** recover_from_log. However often it is cut short, recovery ends in the same place; when it
        returns, the home blocks hold exactly the durable contents and the log is empty. */
    method RecoverFromLog(t: nat) returns (ok: bool)
      requires cache.Valid() && Quiet(cache.buf, cache.pins, cache.disk, [], {}) && Recoverable(L, cache.disk)
      modifies this`lh, cache
      ensures old(cache.trace) <= cache.trace
      ensures AllRecoverTo(L, cache.trace, |old(cache.trace)|, Durable(L, old(cache.disk)))
      ensures ok ==> && cache.Valid() && Quiet(cache.buf, cache.pins, cache.disk, [], {}) && lh == []
                     && Recoverable(L, cache.disk) && HeaderIs(L, cache.disk, [])
                     && Durable(L, old(cache.disk)) == map m | m in cache.disk && !L.InLog(m) :: cache.disk[m]
      ensures !ok ==> NoBuffers(cache.buf)
    {
      ghost var b, bs1;
      ok, b, bs1 := ReadHead(t);
      if !ok { return; }
      ok := Retire(t, true, {});
      if ok { EmptyHeaderIsHome(L, cache.disk); }
    }

    /** The log has room for all that the outstanding operations may write. */
    ghost predicate Reserved()
      reads this
    {
      |lh| + outstanding * MAXOPBLOCKS <= LOGSIZE
    }

    /** One pass of begin_op's loop: false means the caller sleeps and tries again. An operation that is admitted has
        its blocks reserved beside those of every other. */
    method BeginOp() returns (admitted: bool)
      modifies this`outstanding
      ensures admitted || old(Reserved()) ==> Reserved()
      ensures admitted <==> !committing && |lh| + (old(outstanding) + 1) * MAXOPBLOCKS <= LOGSIZE
      ensures outstanding == old(outstanding) + if admitted then 1 else 0
    {
      admitted := !committing && !(|lh| + (outstanding + 1) * MAXOPBLOCKS > LOGSIZE);
      if admitted { outstanding := outstanding + 1; }
    }

    /** end_op. The last operation to end commits everything logged since the log was last empty; any other
        leaves the log and the disk alone. An end while a commit is under way is a panic. */
    method EndOp(t: nat, ghost r: set<nat>) returns (ok: bool)
      requires outstanding >= 1 && !committing
      requires outstanding == 1 ==>
                 && cache.Valid() && Quiet(cache.buf, cache.pins, cache.disk, lh, r) && Elsewhere(L, lh, r)
                 && Recoverable(L, cache.disk) && HeaderIs(L, cache.disk, []) && Loggable(L, cache.disk, lh)
      modifies this`outstanding, this`committing, this`lh, cache
      ensures outstanding == old(outstanding) - 1
      ensures old(outstanding) > 1 ==> ok && !committing && lh == old(lh) && unchanged(cache)
      ensures old(outstanding) == 1 ==>
                CommitTrace(L, old(cache.trace), cache.trace, |old(lh)|,
                            Durable(L, old(cache.disk)), HomeView(L, old(cache.buf), old(cache.disk)))
      ensures !ok ==> NoBuffers(cache.buf)
      ensures old(outstanding) == 1 && ok ==>
                && !committing && lh == [] && cache.Valid() && Quiet(cache.buf, cache.pins, cache.disk, [], r)
                && Recoverable(L, cache.disk) && HeaderIs(L, cache.disk, [])
                && Durable(L, cache.disk) == HomeView(L, old(cache.buf), old(cache.disk))
    {
      ok := true;
      outstanding := outstanding - 1;
      if outstanding == 0 {
        committing := true;
        ok := Commit(t, r);
        committing := !ok;
      }
    }

    method FindLogged(n: nat) returns (i: nat)
      ensures i <= |lh| && n !in lh[..i] && (i < |lh| ==> lh[i] == n)
    {
      i := 0;
      while i < |lh| && lh[i] != n
        invariant 0 <= i <= |lh| && n !in lh[..i]
      {
        i := i + 1;
      }
    }

    /** The block joins the log and its buffer is pinned. */
    method AppendAndPin(n: nat, b: nat)
      requires cache.Valid() && n !in lh && b < NBUF && cache.buf[b].valid && cache.pins[b] == 0
      modifies this`lh, cache`buf, cache`pins
      ensures cache.Valid() && LogWritten(old(cache.buf), old(cache.pins), old(lh), b, n, cache.buf, cache.pins, lh)
      ensures SameBlocks(old(cache.buf), old(cache.disk), cache.buf, cache.disk)
    {
      lh := lh + [n];
      cache.Bpin(b);
    }

    /** log_write on a buffer the caller holds and may have changed: absorbed if the block is logged
        already, otherwise appended and pinned. ok is false where the source panics. */
    method LogWrite(t: nat, n: nat, b: nat) returns (ok: bool)
      requires cache.Valid() && Owned(cache.buf, cache.pins, lh, t, n, b)
      modifies this`lh, cache`buf, cache`pins
      ensures ok <==> |old(lh)| < LOGSIZE && |old(lh)| < L.size - 1 && outstanding >= 1
      ensures !ok ==> lh == old(lh) && cache.buf == old(cache.buf) && cache.pins == old(cache.pins)
      ensures ok ==> && cache.Valid() && Owned(cache.buf, cache.pins, lh, t, n, b) && cache.pins[b] == 1
                     && LogWritten(old(cache.buf), old(cache.pins), old(lh), b, n, cache.buf, cache.pins, lh)
                     && SameBlocks(old(cache.buf), old(cache.disk), cache.buf, cache.disk)
    {
      ok := !(|lh| >= LOGSIZE || |lh| >= L.size - 1) && !(outstanding < 1);
      if !ok { return; }
      var i := FindLogged(n);
      if i == |lh| {
        assert lh[..i] == lh;
        AppendAndPin(n, b);
      }
      LoggedOwned(old(cache.buf), old(cache.pins), cache.disk, old(lh), t, n, b, cache.buf, cache.pins, lh);
    }
  }
}
