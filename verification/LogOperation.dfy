/** A whole file-system operation over the log, in the source's calls: begin_op, then bread, log_write and brelse for
    each block it changes, then end_op (kernel/log.c:136-250, kernel/bio.c). Whatever moment the machine stops
    at, all of the operation's blocks are found changed afterwards or none is. */
module LogOperation {
  import opened Params
  import opened LogLayout
  import opened CacheModel
  import opened Log

  /** d with blocks overwritten by values, in order. */
  ghost function Overlay(d: Disk, blocks: seq<nat>, values: seq<Block>): (d': Disk)
    requires |blocks| == |values|
  {
    if blocks == [] then d
    else Overlay(d, blocks[..|blocks| - 1], values[..|values| - 1])[blocks[|blocks| - 1] := values[|values| - 1]]
  }

  lemma OverlayMore(d: Disk, blocks: seq<nat>, values: seq<Block>, i: nat)
    requires |blocks| == |values| && i < |blocks|
    ensures Overlay(d, blocks[..i + 1], values[..i + 1]) == Overlay(d, blocks[..i], values[..i])[blocks[i] := values[i]]
  {
    assert blocks[..i + 1][..i] == blocks[..i] && values[..i + 1][..i] == values[..i];
  }

  lemma LoggableMore(L: Layout, disk: Disk, lh: seq<nat>, n: nat)
    requires Loggable(L, disk, lh) && n !in lh && n in disk && !L.InLog(n) && |lh| < LOGSIZE && |lh| < L.size - 1
    ensures Loggable(L, disk, lh + [n])
  {
  }

  /** The blocks an operation may write: home blocks that nobody else is reading. */
  ghost predicate Writable(L: Layout, disk: Disk, blocks: seq<nat>, r: set<nat>) {
    forall i | 0 <= i < |blocks| :: blocks[i] in disk && !L.InLog(blocks[i]) && blocks[i] !in r
  }

  /** What the log holds once an operation has written some of blocks: at most that many, all of them its own. */
  ghost predicate LogsOf(L: Layout, disk: Disk, lh: seq<nat>, blocks: seq<nat>) {
    Loggable(L, disk, lh) && |lh| <= |blocks| && forall n | n in lh :: n in blocks
  }

  lemma LogsMore(L: Layout, disk: Disk, lh: seq<nat>, lh': seq<nat>, blocks: seq<nat>, i: nat)
    requires i < |blocks| <= MAXOPBLOCKS < L.size && LogsOf(L, disk, lh, blocks[..i])
    requires blocks[i] in disk && !L.InLog(blocks[i]) && lh' == if blocks[i] in lh then lh else lh + [blocks[i]]
    ensures LogsOf(L, disk, lh', blocks[..i + 1])
  {
    assert blocks[..i + 1] == blocks[..i] + [blocks[i]];
    if blocks[i] !in lh { LoggableMore(L, disk, lh, blocks[i]); }
  }

  /** A store into the buffer held for block n leaves it to the log. */
  lemma StoredOwned(bs: seq<Buf>, pins: seq<nat>, disk: Disk, lh: seq<nat>, r: set<nat>, t: nat, n: nat, b: nat,
                    bs': seq<Buf>, v: Block)
    requires OneHeld(bs, pins, disk, lh, r, t, n, b) && bs' == bs[b := bs[b].(data := v)]
    ensures Owned(bs', pins, lh, t, n, b)
  {
    SameKeyPinned(bs, pins, lh, b, bs');
  }

  /** The buffer held for block n, once the log has pinned it with its new contents. */
  lemma HeldAgain(bs1: seq<Buf>, bs2: seq<Buf>, pins: seq<nat>, lh: seq<nat>, bs3: seq<Buf>, pins3: seq<nat>,
                  lh3: seq<nat>, disk: Disk, r: set<nat>, t: nat, n: nat, b: nat)
    requires b < |bs1| == |pins| && Readers(bs1, disk, r, {b}) && OnlyAt(bs1, bs2, b) && n in disk && n !in r
    requires LogWritten(bs2, pins, lh, b, n, bs3, pins3, lh3) && Owned(bs3, pins3, lh3, t, n, b) && pins3[b] == 1
    ensures OneHeld(bs3, pins3, disk, lh3, r, t, n, b)
  {
    StillReaders(bs1, disk, r, {b}, b, bs3, disk, {b});
  }

  /** log_write of the buffer held for block n, which held bs0 before the store. */
  method LogStored(log: Log, t: nat, n: nat, b: nat, ghost bs0: seq<Buf>, ghost r: set<nat>)
    requires log.cache.Valid() && Owned(log.cache.buf, log.cache.pins, log.lh, t, n, b)
    requires OnlyAt(bs0, log.cache.buf, b) && Readers(bs0, log.cache.disk, r, {b}) && n in log.cache.disk && n !in r
    requires log.outstanding >= 1 && |log.lh| < LOGSIZE && |log.lh| < log.L.size - 1
    modifies log`lh, log.cache`buf, log.cache`pins
    ensures log.cache.Valid() && OneHeld(log.cache.buf, log.cache.pins, log.cache.disk, log.lh, r, t, n, b)
    ensures LogWritten(old(log.cache.buf), old(log.cache.pins), old(log.lh), b, n,
                       log.cache.buf, log.cache.pins, log.lh)
  {
    var ok := log.LogWrite(t, n, b);
    HeldAgain(bs0, old(log.cache.buf), old(log.cache.pins), old(log.lh), log.cache.buf, log.cache.pins, log.lh,
              log.cache.disk, r, t, n, b);
  }

  /** A store of v into the buffer held for block n, and log_write. */
  method StoreAndLog(log: Log, t: nat, n: nat, b: nat, v: Block, ghost r: set<nat>)
    requires log.cache.Valid() && OneHeld(log.cache.buf, log.cache.pins, log.cache.disk, log.lh, r, t, n, b)
    requires log.outstanding >= 1 && |log.lh| < LOGSIZE && |log.lh| < log.L.size - 1
    modifies log`lh, log.cache`buf, log.cache`pins
    ensures log.cache.Valid() && OneHeld(log.cache.buf, log.cache.pins, log.cache.disk, log.lh, r, t, n, b)
    ensures LogWritten(old(log.cache.buf)[b := old(log.cache.buf)[b].(data := v)], old(log.cache.pins), old(log.lh),
                       b, n, log.cache.buf, log.cache.pins, log.lh)
  {
    ghost var bs0, e := log.cache.buf, log.cache.buf[b].(data := v);
    StoredOwned(bs0, log.cache.pins, log.cache.disk, log.lh, r, t, n, b, bs0[b := e], v);
    log.cache.Store(t, b, v);
    LogStored(log, t, n, b, bs0, r);
  }

  /** The buffer an operation used for block n, and the cache after bread and after log_write. */
  datatype Trip = Trip(b: nat, bs1: seq<Buf>, bs3: seq<Buf>)

  /** What bread, a store of v, log_write and brelse do to the buffers, the pins and the log. */
  ghost predicate BlockWritten(bs: seq<Buf>, pins: seq<nat>, disk: Disk, lh: seq<nat>, n: nat, t: nat, v: Block,
                               k: Trip, bs': seq<Buf>, pins': seq<nat>, lh': seq<nat>) {
    var b, bs1 := k.b, k.bs1;
    && ReadBy(bs, pins, disk, n, t, b, bs1) && Keys(bs1, disk)
    && LogWritten(bs1[b := bs1[b].(data := v)], pins, lh, b, n, k.bs3, pins', lh') && ReleasedAt(k.bs3, b, bs')
  }

  lemma WrittenCurrent(bs: seq<Buf>, pins: seq<nat>, disk: Disk, lh: seq<nat>, n: nat, t: nat, v: Block, k: Trip,
                       bs': seq<Buf>, pins': seq<nat>, lh': seq<nat>, m: nat)
    requires BlockWritten(bs, pins, disk, lh, n, t, v, k, bs', pins', lh') && SameBlocks(bs, disk, k.bs1, disk)
    requires Keys(bs', disk) && m in disk
    ensures Current(bs', disk, m) == if m == n then v else Current(bs, disk, m)
  {
    if m == n {
      CurrentIs(bs', disk, k.b);
    } else if i: nat :| i < |k.bs1| && Holds(k.bs1, i, m) {
      CurrentIs(k.bs1, disk, i);
      CurrentIs(bs', disk, i);
    } else {
      forall i: nat | i < |bs'| ensures !Holds(bs', i, m) { assert !Holds(k.bs1, i, m); }
      NotCached(k.bs1, disk, m);
      NotCached(bs', disk, m);
    }
  }

  /** What bread returns for each home block, once block n alone holds v. */
  lemma ViewUpdated(L: Layout, bs: seq<Buf>, pins: seq<nat>, disk: Disk, lh: seq<nat>, n: nat, t: nat, v: Block,
                    k: Trip, bs': seq<Buf>, pins': seq<nat>, lh': seq<nat>)
    requires BlockWritten(bs, pins, disk, lh, n, t, v, k, bs', pins', lh') && SameBlocks(bs, disk, k.bs1, disk)
    requires Keys(bs', disk) && !L.InLog(n)
    ensures HomeView(L, bs', disk) == HomeView(L, bs, disk)[n := v]
  {
    forall m | m in disk
      ensures Current(bs', disk, m) == if m == n then v else Current(bs, disk, m)
    {
      WrittenCurrent(bs, pins, disk, lh, n, t, v, k, bs', pins', lh', m);
    }
  }

  /** A store of v, log_write and brelse, by a thread that has just read n, when the cache was bs0. */
  method WriteHeld(log: Log, t: nat, n: nat, b: nat, v: Block, ghost r: set<nat>, ghost bs0: seq<Buf>)
    returns (ghost bs3: seq<Buf>)
    requires log.cache.Valid() && OneHeld(log.cache.buf, log.cache.pins, log.cache.disk, log.lh, r, t, n, b)
    requires ReadBy(bs0, log.cache.pins, log.cache.disk, n, t, b, log.cache.buf)
    requires log.outstanding >= 1 && |log.lh| < LOGSIZE && |log.lh| < log.L.size - 1
    modifies log`lh, log.cache`buf, log.cache`refs, log.cache`pins
    modifies log.cache`order, log.cache`prev, log.cache`next, log.cache`stamp, log.cache`clock
    ensures log.cache.Valid() && Quiet(log.cache.buf, log.cache.pins, log.cache.disk, log.lh, r)
    ensures BlockWritten(bs0, old(log.cache.pins), log.cache.disk, old(log.lh), n, t, v,
                         Trip(b, old(log.cache.buf), bs3), log.cache.buf, log.cache.pins, log.lh)
  {
    StoreAndLog(log, t, n, b, v, r);
    bs3 := log.cache.buf;
    log.ReleaseLast(t, n, b, log.lh, r);
  }

  /** bread, a store of v, log_write and brelse. */
  method WriteBlock(log: Log, t: nat, n: nat, v: Block, ghost r: set<nat>) returns (ok: bool, ghost k: Trip)
    requires log.cache.Valid() && Quiet(log.cache.buf, log.cache.pins, log.cache.disk, log.lh, r)
    requires n in log.cache.disk && n !in r && log.outstanding >= 1 && |log.lh| < LOGSIZE && |log.lh| < log.L.size - 1
    modifies log`lh, log.cache`buf, log.cache`refs, log.cache`pins
    modifies log.cache`order, log.cache`prev, log.cache`next, log.cache`stamp, log.cache`clock
    ensures ok ==> log.cache.Valid() && Quiet(log.cache.buf, log.cache.pins, log.cache.disk, log.lh, r)
    ensures ok ==> && SameBlocks(old(log.cache.buf), log.cache.disk, k.bs1, log.cache.disk)
                   && BlockWritten(old(log.cache.buf), old(log.cache.pins), log.cache.disk, old(log.lh), n, t, v, k,
                                   log.cache.buf, log.cache.pins, log.lh)
    ensures !ok ==> NoBuffers(log.cache.buf)
  {
    var b;
    ok, b := log.BreadFree(t, n, log.lh, r);
    k := Trip(b, log.cache.buf, []);
    if !ok { return; }
    ghost var bs3 := WriteHeld(log, t, n, b, v, r, old(log.cache.buf));
    k := Trip(b, k.bs1, bs3);
  }

  /** The writes of an operation that has been admitted to an empty log. */
  method WriteBlocks(log: Log, t: nat, blocks: seq<nat>, values: seq<Block>, ghost r: set<nat>) returns (ok: bool)
    requires log.cache.Valid() && Quiet(log.cache.buf, log.cache.pins, log.cache.disk, [], r)
    requires log.lh == [] && log.outstanding >= 1 && |blocks| == |values| <= MAXOPBLOCKS < log.L.size
    requires Writable(log.L, log.cache.disk, blocks, r)
    modifies log`lh, log.cache`buf, log.cache`refs, log.cache`pins
    modifies log.cache`order, log.cache`prev, log.cache`next, log.cache`stamp, log.cache`clock
    ensures ok ==> && log.cache.Valid() && Quiet(log.cache.buf, log.cache.pins, log.cache.disk, log.lh, r)
                   && LogsOf(log.L, log.cache.disk, log.lh, blocks)
                   && HomeView(log.L, log.cache.buf, log.cache.disk)
                      == Overlay(HomeView(log.L, old(log.cache.buf), log.cache.disk), blocks, values)
    ensures !ok ==> NoBuffers(log.cache.buf)
  {
    ghost var view := HomeView(log.L, log.cache.buf, log.cache.disk);
    var i := 0;
    while i < |blocks|
      invariant i <= |blocks| && log.cache.Valid() && Quiet(log.cache.buf, log.cache.pins, log.cache.disk, log.lh, r)
      invariant LogsOf(log.L, log.cache.disk, log.lh, blocks[..i])
      invariant HomeView(log.L, log.cache.buf, log.cache.disk) == Overlay(view, blocks[..i], values[..i])
    {
      ghost var bs, pins, lh := log.cache.buf, log.cache.pins, log.lh;
      ghost var k;
      ok, k := WriteBlock(log, t, blocks[i], values[i], r);
      if !ok { return; }
      ViewUpdated(log.L, bs, pins, log.cache.disk, lh, blocks[i], t, values[i], k,
                  log.cache.buf, log.cache.pins, log.lh);
      OverlayMore(view, blocks, values, i);
      LogsMore(log.L, log.cache.disk, lh, log.lh, blocks, i);
      i := i + 1;
    }
    assert blocks[..i] == blocks && values[..i] == values;
    return true;
  }

  lemma NobodyReads(L: Layout, disk: Disk, lh: seq<nat>, blocks: seq<nat>, r: set<nat>)
    requires LogsOf(L, disk, lh, blocks) && Writable(L, disk, blocks, r) && forall n | n in r :: !L.InLog(n)
    ensures Elsewhere(L, lh, r)
  {
  }

  /** An operation on a quiet system. Every disk it leaves behind recovers to what was durable before or to
      that with all of the operation's blocks changed; once it returns, the latter is durable and the log is
      empty again. log_write does not panic; it ends early only where bget has no buffer left. */
  method Operation(log: Log, t: nat, blocks: seq<nat>, values: seq<Block>, ghost r: set<nat>)
    returns (ok: bool, ghost n: nat)
    requires log.cache.Valid() && Quiet(log.cache.buf, log.cache.pins, log.cache.disk, [], r)
    requires log.lh == [] && log.outstanding == 0 && !log.committing
    requires Recoverable(log.L, log.cache.disk) && HeaderIs(log.L, log.cache.disk, [])
    requires |blocks| == |values| <= MAXOPBLOCKS < log.L.size
    requires Writable(log.L, log.cache.disk, blocks, r) && forall n | n in r :: !log.L.InLog(n)
    modifies log`lh, log`outstanding, log`committing, log.cache
    ensures CommitTrace(log.L, old(log.cache.trace), log.cache.trace, n, Durable(log.L, old(log.cache.disk)),
                        Overlay(Durable(log.L, old(log.cache.disk)), blocks, values))
    ensures ok ==> && log.lh == [] && log.outstanding == 0 && !log.committing
                   && log.cache.Valid() && Quiet(log.cache.buf, log.cache.pins, log.cache.disk, [], r)
                   && Recoverable(log.L, log.cache.disk) && HeaderIs(log.L, log.cache.disk, [])
                   && Durable(log.L, log.cache.disk) == Overlay(Durable(log.L, old(log.cache.disk)), blocks, values)
    ensures !ok ==> NoBuffers(log.cache.buf)
  {
    n := 0;
    QuietViewIsDisk(log.L, log.cache.buf, log.cache.refs, log.cache.pins, log.cache.disk, r);
    var admitted := log.BeginOp();
    assert admitted;
    ok := WriteBlocks(log, t, blocks, values, r);
    if !ok { return; }
    n := |log.lh|;
    NobodyReads(log.L, log.cache.disk, log.lh, blocks, r);
    ok := log.EndOp(t, r);
  }
}
