/** The buffer cache of kernel/bio.c refines the cache of the log protocol: seen as one entry per cached block, what
    bread, a store, log_write and brelse do to the buffers is a step of the protocol, and recycling a buffer is an
    eviction. */
module CacheRefines {
  import opened Options
  import opened Params
  import opened LogLayout
  import opened CacheModel
  import opened LogOperation
  import P = LogProtocol

  // ---------------------------------------------------------------- the buffers as entries

  ghost function EntryOf(e: Buf, pins: nat, dirty: bool): (x: P.Entry) {
    P.Entry(e.data, e.holder, pins > 0, dirty)
  }

  /** One entry for each block that a buffer holds; dirty are the blocks changed since their last log_write. */
  ghost function Entries(bs: seq<Buf>, pins: seq<nat>, disk: Disk, dirty: set<nat>): (c: map<nat, P.Entry>)
    requires |pins| == |bs|
  {
    map n | n in disk && Find(bs, n, 0).Some? && Find(bs, n, 0).value < |bs| ::
      EntryOf(bs[Find(bs, n, 0).value], pins[Find(bs, n, 0).value], n in dirty)
  }

  lemma EntryAt(bs: seq<Buf>, pins: seq<nat>, disk: Disk, dirty: set<nat>, i: nat)
    requires |pins| == |bs| && Keys(bs, disk) && i < |bs| && bs[i].valid
    ensures bs[i].blockno in Entries(bs, pins, disk, dirty)
    ensures Entries(bs, pins, disk, dirty)[bs[i].blockno] == EntryOf(bs[i], pins[i], bs[i].blockno in dirty)
  {
    var n := bs[i].blockno;
    assert Holds(bs, i, n);
    FindFinds(bs, n, 0);
    OneBuffer(bs, disk, i, Find(bs, n, 0).value);
  }

  lemma NoEntry(bs: seq<Buf>, pins: seq<nat>, disk: Disk, dirty: set<nat>, n: nat)
    requires |pins| == |bs| && forall i: nat | i < |bs| :: !Holds(bs, i, n)
    ensures n !in Entries(bs, pins, disk, dirty)
  {
    FindFinds(bs, n, 0);
  }

  /** A block that buffer b holds neither before nor after has the entry it had. */
  lemma EntryKept(bs: seq<Buf>, pins: seq<nat>, dirty: set<nat>, bs': seq<Buf>, pins': seq<nat>, dirty': set<nat>,
                  disk: Disk, b: nat, n: nat)
    requires |pins| == |bs| && |pins'| == |bs'| && Keys(bs, disk) && Keys(bs', disk) && b < |bs|
    requires OnlyAt(bs, bs', b) && OnlyAt(pins, pins', b) && (n in dirty <==> n in dirty')
    requires !Holds(bs, b, n) && !Holds(bs', b, n)
    ensures n in Entries(bs', pins', disk, dirty') <==> n in Entries(bs, pins, disk, dirty)
    ensures n in Entries(bs, pins, disk, dirty) ==> Entries(bs', pins', disk, dirty')[n] == Entries(bs, pins, disk, dirty)[n]
  {
    if i: nat :| i < |bs| && Holds(bs, i, n) {
      EntryAt(bs, pins, disk, dirty, i);
      EntryAt(bs', pins', disk, dirty', i);
    } else {
      forall i: nat | i < |bs'| ensures !Holds(bs', i, n) { assert i != b ==> bs'[i] == bs[i] && !Holds(bs, i, n); }
      NoEntry(bs, pins, disk, dirty, n);
      NoEntry(bs', pins', disk, dirty', n);
    }
  }

  /** A valid buffer that changes and stays valid for its block: that block's entry changes, and no other. */
  lemma EntryUpdated(bs: seq<Buf>, pins: seq<nat>, dirty: set<nat>, bs': seq<Buf>, pins': seq<nat>, dirty': set<nat>,
                     disk: Disk, b: nat, n: nat)
    requires |pins| == |bs| && |pins'| == |bs'| && Keys(bs, disk) && Keys(bs', disk) && b < |bs|
    requires OnlyAt(bs, bs', b) && OnlyAt(pins, pins', b) && Holds(bs, b, n) && Holds(bs', b, n)
    requires forall m | m != n :: m in dirty <==> m in dirty'
    ensures n in Entries(bs, pins, disk, dirty)
            && Entries(bs, pins, disk, dirty)[n] == EntryOf(bs[b], pins[b], n in dirty)
    ensures Entries(bs', pins', disk, dirty') == Entries(bs, pins, disk, dirty)[n := EntryOf(bs'[b], pins'[b], n in dirty')]
  {
    EntryAt(bs, pins, disk, dirty, b);
    EntryAt(bs', pins', disk, dirty', b);
    forall m: nat | m != n
      ensures m in Entries(bs', pins', disk, dirty') <==> m in Entries(bs, pins, disk, dirty)
      ensures m in Entries(bs, pins, disk, dirty) ==> Entries(bs', pins', disk, dirty')[m] == Entries(bs, pins, disk, dirty)[m]
    {
      EntryKept(bs, pins, dirty, bs', pins', dirty', disk, b, m);
    }
  }

  /** The protocol state s has this cache and this disk. */
  ghost predicate Stands(s: P.State, bs: seq<Buf>, pins: seq<nat>, disk: Disk, dirty: set<nat>) {
    |pins| == |bs| && s.disk == disk && s.cache == Entries(bs, pins, disk, dirty)
  }

  // ---------------------------------------------------------------- the steps

  /** The block that buffer b gives up when it is taken for block n, if it held another. */
  ghost function GivenUp(bs: seq<Buf>, b: nat, n: nat): (given: set<nat>)
    requires b < |bs|
  {
    if bs[b].valid && bs[b].blockno != n then {bs[b].blockno} else {}
  }

  ghost function Recycled(s: P.State, bs: seq<Buf>, b: nat, n: nat): (s1: P.State)
    requires b < |bs|
  {
    s.(cache := s.cache - GivenUp(bs, b, n))
  }

  lemma RecycledIsEvict(s: P.State, bs: seq<Buf>, pins: seq<nat>, disk: Disk, dirty: set<nat>, b: nat, n: nat)
    requires |pins| == |bs| && Keys(bs, disk) && b < |bs| && bs[b].valid && bs[b].holder.None? && pins[b] == 0
    requires Stands(s, bs, pins, disk, dirty) && bs[b].blockno != n
    ensures P.DoEvict(s, Recycled(s, bs, b, n), bs[b].blockno)
  {
    EntryAt(bs, pins, disk, dirty, b);
  }

  /** What bread leaves in the cache: the entry of n, locked, and no entry for the block that gave way to it. */
  lemma BreadEntries(bs: seq<Buf>, pins: seq<nat>, disk: Disk, dirty: set<nat>, n: nat, t: nat, b: nat, bs': seq<Buf>,
                     m: nat)
    requires |bs| == |pins| == NBUF && Keys(bs, disk) && Keys(bs', disk) && ReadBy(bs, pins, disk, n, t, b, bs')
    ensures var c, c' := Entries(bs, pins, disk, dirty), Entries(bs', pins, disk, dirty);
            && (m == n ==> m in c' && c'[m] == EntryOf(bs'[b], pins[b], m in dirty))
            && (m != n && bs[b].valid && m == bs[b].blockno ==> m !in c')
            && (m != n && !(bs[b].valid && m == bs[b].blockno) ==> (m in c' <==> m in c) && (m in c ==> c'[m] == c[m]))
  {
    if m == n {
      EntryAt(bs', pins, disk, dirty, b);
    } else if bs[b].valid && m == bs[b].blockno {
      forall i: nat | i < |bs'|
        ensures !Holds(bs', i, m)
      {
        if i != b && Holds(bs', i, m) { OneBuffer(bs, disk, b, i); }
      }
      NoEntry(bs', pins, disk, dirty, m);
    } else {
      EntryKept(bs, pins, dirty, bs', pins, dirty, disk, b, m);
    }
  }

  /** Only valid buffers are pinned. */
  ghost predicate PinnedValid(bs: seq<Buf>, pins: seq<nat>)
    requires |pins| == |bs|
  {
    forall c | 0 <= c < |bs| && pins[c] > 0 :: bs[c].valid
  }

  /** The entry bread leaves for n is the one it found, locked, or one read from the disk. */
  lemma BreadEntry(bs: seq<Buf>, pins: seq<nat>, disk: Disk, dirty: set<nat>, n: nat, t: nat, b: nat, bs': seq<Buf>)
    requires |pins| == |bs| && PinnedValid(bs, pins) && Keys(bs, disk) && Keys(bs', disk)
             && ReadBy(bs, pins, disk, n, t, b, bs')
    requires n !in dirty
    ensures var c := Entries(bs, pins, disk, dirty);
            EntryOf(bs'[b], pins[b], false) == if n in c then c[n].(holder := Some(t)) else P.Entry(disk[n], Some(t), false, false)
    ensures n in Entries(bs, pins, disk, dirty) ==> bs[b].valid && bs[b].blockno == n
  {
    if i: nat :| i < |bs| && Holds(bs, i, n) {
      if i != b { OneBuffer(bs', disk, i, b); }
      EntryAt(bs, pins, disk, dirty, b);
      CurrentIs(bs, disk, b);
    } else {
      NoEntry(bs, pins, disk, dirty, n);
      NotCached(bs, disk, n);
      assert !Holds(bs, b, n);
    }
  }

  lemma BreadCache(s: P.State, bs: seq<Buf>, pins: seq<nat>, disk: Disk, dirty: set<nat>, n: nat, t: nat, b: nat,
                   bs': seq<Buf>, e: P.Entry)
    requires |bs| == |pins| == NBUF && Keys(bs, disk) && Keys(bs', disk) && ReadBy(bs, pins, disk, n, t, b, bs')
    requires Stands(s, bs, pins, disk, dirty) && e == EntryOf(bs'[b], pins[b], n in dirty)
    ensures Entries(bs', pins, disk, dirty) == Recycled(s, bs, b, n).cache[n := e]
  {
    var c, c' := Recycled(s, bs, b, n).cache[n := e], Entries(bs', pins, disk, dirty);
    forall m: nat
      ensures m in c' <==> m in c
      ensures m in c && m in c' ==> c'[m] == c[m]
    {
      BreadEntries(bs, pins, disk, dirty, n, t, b, bs', m);
    }
  }

  lemma UnlockedEntry(bs: seq<Buf>, pins: seq<nat>, disk: Disk, dirty: set<nat>, n: nat)
    requires |pins| == |bs| && Keys(bs, disk) && Free(bs, n)
    ensures n in Entries(bs, pins, disk, dirty) ==> Entries(bs, pins, disk, dirty)[n].holder.None?
  {
    if i: nat :| i < |bs| && Holds(bs, i, n) {
      EntryAt(bs, pins, disk, dirty, i);
    } else {
      NoEntry(bs, pins, disk, dirty, n);
    }
  }

  /** No buffer of block n is locked. */
  ghost predicate Free(bs: seq<Buf>, n: nat) {
    forall c | 0 <= c < |bs| && bs[c].HasKey(ROOTDEV, n) :: bs[c].holder.None?
  }

  /** The protocol state before bread, once the block whose buffer bread recycles has been evicted. */
  lemma BreadEvicts(s: P.State, bs: seq<Buf>, pins: seq<nat>, disk: Disk, dirty: set<nat>, n: nat, t: nat, b: nat,
                    bs': seq<Buf>)
    requires |pins| == |bs| && Keys(bs, disk) && ReadBy(bs, pins, disk, n, t, b, bs')
             && Stands(s, bs, pins, disk, dirty)
    ensures var s1 := Recycled(s, bs, b, n); s1 == s || P.DoEvict(s, s1, bs[b].blockno)
  {
    if bs[b].valid && bs[b].blockno != n {
      RecycledIsEvict(s, bs, pins, disk, dirty, b, n);
    } else {
      assert s.cache - {} == s.cache;
    }
  }

  /** bread is the protocol's bread, after the eviction of the block whose buffer it recycled. */
  lemma BreadIsStep(L: Layout, s: P.State, s': P.State, bs: seq<Buf>, pins: seq<nat>, disk: Disk, dirty: set<nat>,
                    n: nat, t: nat, b: nat, bs': seq<Buf>)
    requires |bs| == |pins| == NBUF && Keys(bs, disk) && PinnedValid(bs, pins) && Keys(bs', disk)
             && ReadBy(bs, pins, disk, n, t, b, bs')
    requires n !in dirty && Free(bs, n)
    requires Stands(s, bs, pins, disk, dirty) && !P.Recovering(s) && !L.InLog(n)
    requires s' == s.(cache := Entries(bs', pins, disk, dirty))
    ensures var s1 := Recycled(s, bs, b, n);
            && (s1 == s || P.DoEvict(s, s1, bs[b].blockno)) && P.DoBread(L, s1, s', t, n)
            && Stands(s', bs', pins, disk, dirty)
  {
    BreadEvicts(s, bs, pins, disk, dirty, n, t, b, bs');
    BreadEntry(bs, pins, disk, dirty, n, t, b, bs');
    BreadCache(s, bs, pins, disk, dirty, n, t, b, bs', EntryOf(bs'[b], pins[b], false));
    UnlockedEntry(bs, pins, disk, dirty, n);
  }

  /** A store into a locked buffer, by a thread in an operation. */
  lemma StoreIsStep(s: P.State, bs: seq<Buf>, pins: seq<nat>, disk: Disk, dirty: set<nat>, n: nat, t: nat, b: nat,
                    v: Block)
    requires |pins| == |bs| && Keys(bs, disk) && Stands(s, bs, pins, disk, dirty) && b < |bs| && Holds(bs, b, n)
    requires bs[b].holder == Some(t) && P.InOp(s, t)
    ensures var bs', dirty' := bs[b := bs[b].(data := v)], dirty + {n};
            var s' := s.(cache := Entries(bs', pins, disk, dirty'));
            P.DoModify(s, s', t, n, v) && Stands(s', bs', pins, disk, dirty')
  {
    var bs', dirty' := bs[b := bs[b].(data := v)], dirty + {n};
    KeysUpdated(bs, disk, b, bs'[b]);
    EntryUpdated(bs, pins, dirty, bs', pins, dirty', disk, b, n);
  }

  /** log_write of a locked buffer: absorbed, or appended and pinned. */
  lemma LogWriteIsStep(L: Layout, s: P.State, bs: seq<Buf>, pins: seq<nat>, disk: Disk, dirty: set<nat>, n: nat, t: nat,
                       b: nat, bs': seq<Buf>, pins': seq<nat>, lh': seq<nat>)
    requires |pins| == |bs| && Keys(bs, disk) && Keys(bs', disk) && |pins'| == |bs'|
    requires Stands(s, bs, pins, disk, dirty) && b < |bs| && Holds(bs, b, n) && bs[b].holder == Some(t)
    requires P.InOp(s, t) && !P.TooBig(L, s) && s.outstanding >= 1 && (n in s.lh || s.ops[t].value < MAXOPBLOCKS)
    requires LogWritten(bs, pins, s.lh, b, n, bs', pins', lh')
    ensures var s' := s.(cache := Entries(bs', pins', disk, dirty - {n}), lh := lh',
                         ops := if n in s.lh then s.ops else s.ops[t := Some(s.ops[t].value + 1)]);
            P.DoLogWrite(L, s, s', t, n) && Stands(s', bs', pins', disk, dirty - {n})
  {
    EntryUpdated(bs, pins, dirty, bs', pins', dirty - {n}, disk, b, n);
  }

  /** brelse of a buffer without unlogged changes. */
  lemma BrelseIsStep(s: P.State, bs: seq<Buf>, pins: seq<nat>, disk: Disk, dirty: set<nat>, n: nat, t: nat, b: nat,
                     bs': seq<Buf>)
    requires |pins| == |bs| && Keys(bs, disk) && Keys(bs', disk) && Stands(s, bs, pins, disk, dirty)
    requires b < |bs| && Holds(bs, b, n) && bs[b].holder == Some(t) && ReleasedAt(bs, b, bs')
    requires n !in dirty
    ensures var s' := s.(cache := Entries(bs', pins, disk, dirty));
            P.DoBrelse(s, s', t, n) && Stands(s', bs', pins, disk, dirty)
  {
    EntryUpdated(bs, pins, dirty, bs', pins, dirty, disk, b, n);
  }

  // ---------------------------------------------------------------- the calls of an operation

  /** The three calls on the locked buffer: a store, log_write and brelse. */
  lemma LockedSteps(L: Layout, s1: P.State, bs1: seq<Buf>, pins: seq<nat>, disk: Disk, dirty: set<nat>, n: nat, t: nat,
                    b: nat, v: Block, bs2: seq<Buf>, bs3: seq<Buf>, pins3: seq<nat>, bs4: seq<Buf>, lh: seq<nat>)
    returns (s2: P.State, s3: P.State, s4: P.State)
    requires |pins| == |bs1| && Keys(bs1, disk) && Stands(s1, bs1, pins, disk, dirty) && n !in dirty
    requires b < |bs1| && Holds(bs1, b, n) && bs1[b].holder == Some(t)
    requires P.InOp(s1, t) && !P.TooBig(L, s1) && s1.outstanding >= 1 && (n in s1.lh || s1.ops[t].value < MAXOPBLOCKS)
    requires bs2 == bs1[b := bs1[b].(data := v)] && LogWritten(bs2, pins, s1.lh, b, n, bs3, pins3, lh)
    requires ReleasedAt(bs3, b, bs4)
    ensures P.DoModify(s1, s2, t, n, v) && P.DoLogWrite(L, s2, s3, t, n) && P.DoBrelse(s3, s4, t, n)
    ensures Stands(s4, bs4, pins3, disk, dirty) && s4.lh == lh
  {
    StoreIsStep(s1, bs1, pins, disk, dirty, n, t, b, v);
    s2 := s1.(cache := Entries(bs2, pins, disk, dirty + {n}));
    KeysUpdated(bs1, disk, b, bs2[b]);
    KeysUpdated(bs2, disk, b, bs3[b]);
    KeysUpdated(bs3, disk, b, bs4[b]);
    LogWriteIsStep(L, s2, bs2, pins, disk, dirty + {n}, n, t, b, bs3, pins3, lh);
    assert dirty + {n} - {n} == dirty;
    s3 := s2.(cache := Entries(bs3, pins3, disk, dirty), lh := lh,
              ops := if n in s2.lh then s2.ops else s2.ops[t := Some(s2.ops[t].value + 1)]);
    BrelseIsStep(s3, bs3, pins3, disk, dirty, n, t, b, bs4);
    s4 := s3.(cache := Entries(bs4, pins3, disk, dirty));
  }

  /** The thread may change block n: it is in an operation that has blocks of its reservation left. */
  ghost predicate MayWrite(L: Layout, s: P.State, t: nat, n: nat) {
    && !P.Recovering(s) && P.InOp(s, t) && !P.TooBig(L, s) && s.outstanding >= 1
    && (n in s.lh || s.ops[t].value < MAXOPBLOCKS)
  }

  /** The protocol states an operation's write of a block goes through, after an eviction if bread recycled a buffer. */
  datatype WriteRun = WriteRun(evicted: nat, s0: P.State, s1: P.State, s2: P.State, s3: P.State, s4: P.State)

  ghost predicate IsWrite(L: Layout, s: P.State, w: WriteRun, t: nat, n: nat, v: Block) {
    var s0, s1, s2, s3, s4 := w.s0, w.s1, w.s2, w.s3, w.s4;
    && (s0 == s || P.DoEvict(s, s0, w.evicted)) && P.DoBread(L, s0, s1, t, n) && P.DoModify(s1, s2, t, n, v)
    && P.DoLogWrite(L, s2, s3, t, n) && P.DoBrelse(s3, s4, t, n)
  }

  /** The calls by which an operation changes block n: bread, a store, log_write and brelse. Seen as entries they are
      four steps of the protocol, with an eviction before them where bread recycled the buffer of another block. */
  lemma WriteRefines(L: Layout, s: P.State, bs: seq<Buf>, pins: seq<nat>, disk: Disk, dirty: set<nat>, n: nat, t: nat,
                     v: Block, k: Trip, bs': seq<Buf>, pins': seq<nat>, lh': seq<nat>)
    returns (w: WriteRun)
    requires |bs| == |pins| == NBUF && Keys(bs, disk) && PinnedValid(bs, pins) && Stands(s, bs, pins, disk, dirty)
    requires n !in dirty && !L.InLog(n) && Free(bs, n) && MayWrite(L, s, t, n)
    requires BlockWritten(bs, pins, disk, s.lh, n, t, v, k, bs', pins', lh')
    ensures IsWrite(L, s, w, t, n, v)
    ensures Stands(w.s4, bs', pins', disk, dirty) && w.s4.lh == lh'
    ensures w.s4.outstanding == s.outstanding && w.s4.phase == s.phase
  {
    var s0, s1 := Recycled(s, bs, k.b, n), s.(cache := Entries(k.bs1, pins, disk, dirty));
    BreadIsStep(L, s, s1, bs, pins, disk, dirty, n, t, k.b, k.bs1);
    var bs2 := k.bs1[k.b := k.bs1[k.b].(data := v)];
    var s2, s3, s4 := LockedSteps(L, s1, k.bs1, pins, disk, dirty, n, t, k.b, v, bs2, k.bs3, pins', bs', lh');
    w := WriteRun(bs[k.b].blockno, s0, s1, s2, s3, s4);
  }

  lemma QuietFree(bs: seq<Buf>, pins: seq<nat>, disk: Disk, p: seq<nat>, r: set<nat>, n: nat)
    requires Quiet(bs, pins, disk, p, r) && n !in r
    ensures Free(bs, n) && PinnedValid(bs, pins)
  {
    FreeToRead(bs, disk, r, {}, n);
  }

  // ---------------------------------------------------------------- the block writes of commit

  lemma EntriesOfKeys(bs: seq<Buf>, pins: seq<nat>, disk: Disk, disk': Disk, dirty: set<nat>)
    requires |pins| == |bs| && disk'.Keys == disk.Keys
    ensures Entries(bs, pins, disk', dirty) == Entries(bs, pins, disk, dirty)
  {
  }

  /** On entries: n locked, its contents replaced by v, and unlocked again. */
  lemma PutEntries(disk: Disk, c: map<nat, P.Entry>, given: set<nat>, n: nat, t: nat, v: Block, e: P.Entry)
    requires n in disk && n !in given && (n in c ==> c[n].holder.None?)
    requires e == if n in c then c[n].(holder := Some(t)) else P.Entry(disk[n], Some(t), false, false)
    ensures var c0 := c - given;
            var f := P.Fetch(disk, c0, n);
            && f[n := f[n].(data := v)] == c0[n := e][n := e.(data := v, holder := None)]
            && (n in c0 ==> c0[n].holder.None?) && e.data == if n in c0 then c0[n].data else disk[n]
  {
  }

  lemma PutCache(s: P.State, bs: seq<Buf>, pins: seq<nat>, disk: Disk, dirty: set<nat>, n: nat, t: nat, v: Block,
                 b: nat, bs1: seq<Buf>, bs': seq<Buf>, disk': Disk, e: P.Entry)
    requires |bs| == |pins| == NBUF && Keys(bs, disk) && Stands(s, bs, pins, disk, dirty) && n !in dirty
    requires PutDone(bs, pins, disk, n, t, v, b, bs1, bs', disk') && e == EntryOf(bs1[b], pins[b], false)
    ensures Entries(bs', pins, disk', dirty) == Recycled(s, bs, b, n).cache[n := e][n := e.(data := v, holder := None)]
  {
    BreadCache(s, bs, pins, disk, dirty, n, t, b, bs1, e);
    KeysUpdated(bs1, disk, b, bs'[b]);
    assert bs' == bs1[b := bs'[b]];
    EntryUpdated(bs1, pins, dirty, bs', pins, dirty, disk, b, n);
    EntriesOfKeys(bs', pins, disk, disk', dirty);
  }

  /** The header write: bread of n, v copied into the buffer, bwrite and brelse. It is the protocol's Put, after the
      eviction of the block whose buffer was recycled. */
  lemma PutRefines(s: P.State, bs: seq<Buf>, pins: seq<nat>, disk: Disk, dirty: set<nat>, n: nat, t: nat, v: Block,
                   b: nat, bs1: seq<Buf>, bs': seq<Buf>, disk': Disk)
    requires |bs| == |pins| == NBUF && Keys(bs, disk) && PinnedValid(bs, pins) && Stands(s, bs, pins, disk, dirty)
    requires n !in dirty && Free(bs, n) && PutDone(bs, pins, disk, n, t, v, b, bs1, bs', disk')
    ensures var s0 := Recycled(s, bs, b, n);
            && (s0 == s || P.DoEvict(s, s0, bs[b].blockno)) && P.Ready(s0, n)
            && Stands(P.Put(s0, n, v), bs', pins, disk', dirty) && P.Contents(s0, n) == bs1[b].data
  {
    var e := EntryOf(bs1[b], pins[b], false);
    BreadEvicts(s, bs, pins, disk, dirty, n, t, b, bs1);
    BreadEntry(bs, pins, disk, dirty, n, t, b, bs1);
    UnlockedEntry(bs, pins, disk, dirty, n);
    PutEntries(disk, s.cache, GivenUp(bs, b, n), n, t, v, e);
    PutCache(s, bs, pins, disk, dirty, n, t, v, b, bs1, bs', disk', e);
  }

  lemma PutIsFetch(s: P.State, n: nat, v: Block)
    requires n in s.disk && v == P.Contents(s, n)
    ensures P.Put(s, n, v).cache == P.Fetch(s.disk, s.cache, n)
  {
  }

  /** read_head's bread and brelse of the header block: the protocol's fetch, after an eviction. */
  lemma FetchRefines(s: P.State, bs: seq<Buf>, pins: seq<nat>, disk: Disk, dirty: set<nat>, n: nat, t: nat, b: nat,
                     bs1: seq<Buf>, bs': seq<Buf>)
    requires |bs| == |pins| == NBUF && Keys(bs, disk) && PinnedValid(bs, pins) && Stands(s, bs, pins, disk, dirty)
    requires n !in dirty && Free(bs, n) && ReadBy(bs, pins, disk, n, t, b, bs1) && Keys(bs1, disk)
             && ReleasedAt(bs1, b, bs')
    ensures var s0 := Recycled(s, bs, b, n);
            && (s0 == s || P.DoEvict(s, s0, bs[b].blockno)) && P.Ready(s0, n) && P.Contents(s0, n) == bs1[b].data
            && Stands(s0.(cache := P.Fetch(disk, s0.cache, n)), bs', pins, disk, dirty)
  {
    var s0, v := Recycled(s, bs, b, n), bs1[b].data;
    assert bs1[b := bs1[b].(data := v)] == bs1;
    PutRefines(s, bs, pins, disk, dirty, n, t, v, b, bs1, bs', disk[n := v]);
    EntriesOfKeys(bs', pins, disk, disk[n := v], dirty);
    PutIsFetch(s0, n, v);
  }

  /** The protocol state before a round, once the blocks whose buffers its two breads recycle have been evicted. */
  ghost function RecycledTwo(s: P.State, bs: seq<Buf>, n1: nat, n2: nat, k: Round): (s1: P.State)
    requires k.b1 < |bs| && k.b2 < |k.bs1|
  {
    Recycled(Recycled(s, bs, k.b1, n1), k.bs1, k.b2, n2)
  }

  /** At most two evictions, one for each bread. */
  lemma TwoEvictions(s: P.State, bs: seq<Buf>, pins: seq<nat>, disk: Disk, dirty: set<nat>, n1: nat, n2: nat, t: nat,
                     k: Round)
    requires |bs| == |pins| == NBUF && Keys(bs, disk) && Stands(s, bs, pins, disk, dirty)
    requires ReadTwo(bs, pins, disk, n1, n2, t, k)
    ensures var s0 := Recycled(s, bs, k.b1, n1); var s1 := Recycled(s0, k.bs1, k.b2, n2);
            && (s0 == s || P.DoEvict(s, s0, bs[k.b1].blockno))
            && (s1 == s0 || P.DoEvict(s0, s1, bs[k.b2].blockno))
  {
    BreadEvicts(s, bs, pins, disk, dirty, n1, t, k.b1, k.bs1);
    var e := bs[k.b2];
    if e.valid && e.blockno != n2 {
      EntryAt(bs, pins, disk, dirty, k.b2);
      if bs[k.b1].valid && bs[k.b1].blockno == e.blockno { OneBuffer(bs, disk, k.b1, k.b2); }
    }
  }

  /** The entry for n is e, locked by t. */
  ghost predicate LockedFrom(disk: Disk, c: map<nat, P.Entry>, n: nat, t: nat, e: P.Entry)
    requires n in disk
  {
    e == if n in c then c[n].(holder := Some(t)) else P.Entry(disk[n], Some(t), false, false)
  }

  /** On entries: two breads, each giving up at most one other entry. Nothing is lost by giving them up first. */
  lemma TwoLocked(disk: Disk, c: map<nat, P.Entry>, given1: set<nat>, n1: nat, e1: P.Entry, c1: map<nat, P.Entry>,
                  given2: set<nat>, n2: nat, e2: P.Entry, c2: map<nat, P.Entry>, t: nat)
    requires n1 in disk && n2 in disk && n1 != n2 && n1 !in given1 && n1 !in given2 && n2 !in given2
    requires LockedFrom(disk, c, n1, t, e1) && c1 == (c - given1)[n1 := e1]
    requires LockedFrom(disk, c1, n2, t, e2) && c2 == (c1 - given2)[n2 := e2]
    ensures var c0 := c - given1 - given2;
            c2 == c0[n1 := e1][n2 := e2] && LockedFrom(disk, c0, n1, t, e1) && LockedFrom(disk, c0, n2, t, e2)
  {
  }

  /** What bread does to the entries. */
  lemma BreadLocks(bs: seq<Buf>, pins: seq<nat>, disk: Disk, dirty: set<nat>, n: nat, t: nat, b: nat, bs': seq<Buf>,
                   e: P.Entry)
    requires |bs| == |pins| == NBUF && Keys(bs, disk) && PinnedValid(bs, pins) && Keys(bs', disk)
    requires ReadBy(bs, pins, disk, n, t, b, bs') && n !in dirty && e == EntryOf(bs'[b], pins[b], false)
    ensures var c := Entries(bs, pins, disk, dirty);
            LockedFrom(disk, c, n, t, e) && Entries(bs', pins, disk, dirty) == (c - GivenUp(bs, b, n))[n := e]
    ensures PinnedValid(bs', pins)
  {
    var s := P.State(disk, Entries(bs, pins, disk, dirty), [], 0, false, P.Boot, []);
    BreadEntry(bs, pins, disk, dirty, n, t, b, bs');
    BreadCache(s, bs, pins, disk, dirty, n, t, b, bs', e);
  }

  /** The second bread does not give up the block that the first has locked. */
  lemma FirstKept(bs: seq<Buf>, disk: Disk, b1: nat, b2: nat, n1: nat, n2: nat)
    requires Keys(bs, disk) && b1 < |bs| && b2 < |bs| && b1 != b2 && Holds(bs, b1, n1)
    ensures n1 !in GivenUp(bs, b2, n2)
  {
    if n1 in GivenUp(bs, b2, n2) { OneBuffer(bs, disk, b1, b2); }
  }

  /** The cache once both buffers are locked. */
  lemma TwoRead(s: P.State, bs: seq<Buf>, pins: seq<nat>, disk: Disk, dirty: set<nat>, n1: nat, n2: nat, t: nat,
                k: Round, e1: P.Entry, e2: P.Entry)
    requires |bs| == |pins| == NBUF && Keys(bs, disk) && PinnedValid(bs, pins) && Stands(s, bs, pins, disk, dirty)
    requires ReadTwo(bs, pins, disk, n1, n2, t, k) && n1 != n2 && n1 !in dirty && n2 !in dirty
    requires e1 == EntryOf(k.bs1[k.b1], pins[k.b1], false) && e2 == EntryOf(k.bs2[k.b2], pins[k.b2], false)
    ensures var c0 := RecycledTwo(s, bs, n1, n2, k).cache;
            && Entries(k.bs2, pins, disk, dirty) == c0[n1 := e1][n2 := e2]
            && LockedFrom(disk, c0, n1, t, e1) && LockedFrom(disk, c0, n2, t, e2)
  {
    var given1, given2 := GivenUp(bs, k.b1, n1), GivenUp(k.bs1, k.b2, n2);
    var c1, c2 := Entries(k.bs1, pins, disk, dirty), Entries(k.bs2, pins, disk, dirty);
    BreadLocks(bs, pins, disk, dirty, n1, t, k.b1, k.bs1, e1);
    BreadLocks(k.bs1, pins, disk, dirty, n2, t, k.b2, k.bs2, e2);
    FirstKept(k.bs1, disk, k.b1, k.b2, n1, n2);
    TwoLocked(disk, s.cache, given1, n1, e1, c1, given2, n2, e2, c2, t);
  }

  /** The entries once the round is over. */
  lemma RoundEntries(bs: seq<Buf>, pins: seq<nat>, disk: Disk, dirty: set<nat>, src: nat, b1: nat, dst: nat, b2: nat,
                     unpin: bool, bs': seq<Buf>, pins': seq<nat>, disk': Disk, e1: P.Entry, e2: P.Entry)
    requires |pins| == |bs| && Keys(bs, disk) && Keys(bs', disk') && src !in dirty && dst !in dirty && b1 != b2
    requires RoundLeft(bs, pins, disk, b1, b2, unpin, bs', pins', disk') && Holds(bs, b1, src) && Holds(bs, b2, dst)
    requires e1 == EntryOf(bs[b1], pins[b1], false) && e2 == EntryOf(bs[b2], pins[b2], false)
    ensures Entries(bs', pins', disk', dirty)
            == Entries(bs, pins, disk, dirty)[src := e1.(holder := None)]
                 [dst := e2.(data := e1.data, holder := None, pinned := !unpin && e2.pinned)]
  {
    var bsm := bs[b1 := bs'[b1]];
    KeysUpdated(bs, disk, b1, bs'[b1]);
    KeysUpdated(bsm, disk, b2, bs'[b2]);
    assert bs' == bsm[b2 := bs'[b2]];
    EntryUpdated(bs, pins, dirty, bsm, pins, dirty, disk, b1, src);
    EntryUpdated(bsm, pins, dirty, bs', pins', dirty, disk, b2, dst);
    EntriesOfKeys(bs', pins', disk, disk', dirty);
  }

  /** The protocol state after a round that copies src over dst: both fetched, dst overwritten and unpinned if asked. */
  ghost function RoundState(s: P.State, src: nat, dst: nat, unpin: bool): (s': P.State)
    requires src in s.disk && dst in s.disk
  {
    var put := P.Put(s.(cache := P.Fetch(s.disk, s.cache, src)), dst, P.Contents(s, src));
    if unpin then P.Unpin(put, dst) else put
  }

  lemma RoundCache(s: P.State, src: nat, dst: nat, t: nat, unpin: bool, e1: P.Entry, e2: P.Entry)
    requires src in s.disk && dst in s.disk && src != dst && P.Unlocked(s, src) && P.Unlocked(s, dst)
    requires LockedFrom(s.disk, s.cache, src, t, e1) && LockedFrom(s.disk, s.cache, dst, t, e2)
    ensures var f2 := e2.(data := e1.data, holder := None, pinned := !unpin && e2.pinned);
            RoundState(s, src, dst, unpin).cache == s.cache[src := e1.(holder := None)][dst := f2]
    ensures P.Contents(s, src) == e1.data
  {
  }

  lemma TwoOverwritten(c: map<nat, P.Entry>, n1: nat, n2: nat, e1: P.Entry, e2: P.Entry, f1: P.Entry, f2: P.Entry)
    requires n1 != n2
    ensures c[n1 := e1][n2 := e2][n1 := f1][n2 := f2] == c[n1 := f1][n2 := f2]
    ensures c[n1 := e1][n2 := e2] == c[n2 := e2][n1 := e1]
  {
  }

  lemma RoundStands(s: P.State, bs: seq<Buf>, pins: seq<nat>, disk: Disk, dirty: set<nat>, src: nat, b1: nat, dst: nat,
                    b2: nat, t: nat, unpin: bool, bs': seq<Buf>, pins': seq<nat>, disk': Disk, e1: P.Entry, e2: P.Entry)
    requires s.disk == disk && src in disk && dst in disk && src != dst && P.Unlocked(s, src) && P.Unlocked(s, dst)
    requires |pins| == |bs| && Keys(bs, disk) && Keys(bs', disk') && src !in dirty && dst !in dirty && b1 != b2
    requires RoundLeft(bs, pins, disk, b1, b2, unpin, bs', pins', disk') && Holds(bs, b1, src) && Holds(bs, b2, dst)
    requires e1 == EntryOf(bs[b1], pins[b1], false) && e2 == EntryOf(bs[b2], pins[b2], false)
    requires LockedFrom(disk, s.cache, src, t, e1) && LockedFrom(disk, s.cache, dst, t, e2)
    requires Entries(bs, pins, disk, dirty) == s.cache[src := e1][dst := e2]
    ensures Stands(RoundState(s, src, dst, unpin), bs', pins', disk', dirty)
  {
    RoundEntries(bs, pins, disk, dirty, src, b1, dst, b2, unpin, bs', pins', disk', e1, e2);
    RoundCache(s, src, dst, t, unpin, e1, e2);
    var f1, f2 := e1.(holder := None), e2.(data := e1.data, holder := None, pinned := !unpin && e2.pinned);
    TwoOverwritten(s.cache, src, dst, e1, e2, f1, f2);
  }

  /** The blocks of a round stay unlocked while others are evicted. */
  lemma UnlockedStill(s: P.State, bs: seq<Buf>, pins: seq<nat>, disk: Disk, dirty: set<nat>, n1: nat, n2: nat, k: Round,
                      n: nat)
    requires Keys(bs, disk) && Stands(s, bs, pins, disk, dirty) && k.b1 < |bs| && k.b2 < |k.bs1| && Free(bs, n)
    ensures P.Unlocked(RecycledTwo(s, bs, n1, n2, k), n)
  {
    UnlockedEntry(bs, pins, disk, dirty, n);
  }

  /** At most two evictions take s to the state a round starts from. */
  ghost predicate Evictions(s: P.State, s1: P.State) {
    exists s0, o1, o2 :: EvictedTwo(s, s0, o1, s1, o2)
  }

  ghost predicate EvictedTwo(s: P.State, s0: P.State, o1: nat, s1: P.State, o2: nat) {
    (s0 == s || P.DoEvict(s, s0, o1)) && (s1 == s0 || P.DoEvict(s0, s1, o2))
  }

  /** A round of install_trans, which reads the log block first: evictions, then the protocol's fetch, copy, write and
      unpinning. */
  lemma InstallRefines(s: P.State, bs: seq<Buf>, pins: seq<nat>, disk: Disk, dirty: set<nat>, src: nat, dst: nat,
                       t: nat, unpin: bool, k: Round, bs': seq<Buf>, pins': seq<nat>, disk': Disk)
    requires |bs| == |pins| == NBUF && Keys(bs, disk) && PinnedValid(bs, pins) && Stands(s, bs, pins, disk, dirty)
    requires Free(bs, src) && Free(bs, dst) && src != dst && src !in dirty && dst !in dirty
    requires ReadTwo(bs, pins, disk, src, dst, t, k) && Keys(bs', disk')
    requires RoundLeft(k.bs2, pins, disk, k.b1, k.b2, unpin, bs', pins', disk')
    ensures var s1 := RecycledTwo(s, bs, src, dst, k);
            && Evictions(s, s1) && P.Ready(s1, src) && P.Ready(s1, dst)
            && Stands(RoundState(s1, src, dst, unpin), bs', pins', disk', dirty)
  {
    var s0, s1 := Recycled(s, bs, k.b1, src), RecycledTwo(s, bs, src, dst, k);
    TwoEvictions(s, bs, pins, disk, dirty, src, dst, t, k);
    assert EvictedTwo(s, s0, bs[k.b1].blockno, s1, bs[k.b2].blockno);
    var e1, e2 := EntryOf(k.bs1[k.b1], pins[k.b1], false), EntryOf(k.bs2[k.b2], pins[k.b2], false);
    TwoRead(s, bs, pins, disk, dirty, src, dst, t, k, e1, e2);
    UnlockedStill(s, bs, pins, disk, dirty, src, dst, k, src);
    UnlockedStill(s, bs, pins, disk, dirty, src, dst, k, dst);
    RoundStands(s1, k.bs2, pins, disk, dirty, src, k.b1, dst, k.b2, t, unpin, bs', pins', disk', e1, e2);
  }

  /** A round of write_log, which reads the block it writes first. */
  lemma LogRefines(s: P.State, bs: seq<Buf>, pins: seq<nat>, disk: Disk, dirty: set<nat>, from: nat, to: nat, t: nat,
                   k: Round, bs': seq<Buf>, pins': seq<nat>, disk': Disk)
    requires |bs| == |pins| == NBUF && Keys(bs, disk) && PinnedValid(bs, pins) && Stands(s, bs, pins, disk, dirty)
    requires Free(bs, from) && Free(bs, to) && from != to && from !in dirty && to !in dirty
    requires ReadTwo(bs, pins, disk, to, from, t, k) && Keys(bs', disk')
    requires RoundLeft(k.bs2, pins, disk, k.b2, k.b1, false, bs', pins', disk')
    ensures var s1 := RecycledTwo(s, bs, to, from, k);
            && Evictions(s, s1) && P.Ready(s1, from) && P.Ready(s1, to)
            && Stands(RoundState(s1, from, to, false), bs', pins', disk', dirty)
  {
    var s0, s1 := Recycled(s, bs, k.b1, to), RecycledTwo(s, bs, to, from, k);
    TwoEvictions(s, bs, pins, disk, dirty, to, from, t, k);
    assert EvictedTwo(s, s0, bs[k.b1].blockno, s1, bs[k.b2].blockno);
    var e1, e2 := EntryOf(k.bs1[k.b1], pins[k.b1], false), EntryOf(k.bs2[k.b2], pins[k.b2], false);
    TwoRead(s, bs, pins, disk, dirty, to, from, t, k, e1, e2);
    TwoOverwritten(s1.cache, to, from, e1, e2, e1, e2);
    UnlockedStill(s, bs, pins, disk, dirty, to, from, k, from);
    UnlockedStill(s, bs, pins, disk, dirty, to, from, k, to);
    RoundStands(s1, k.bs2, pins, disk, dirty, from, k.b2, to, k.b1, t, false, bs', pins', disk', e2, e1);
  }

  /** Evictions take s to s1, and the step takes s1 to s'. */
  ghost predicate StepAfter(L: Layout, s: P.State, s1: P.State, s': P.State, step: P.Step) {
    var before := s1;
    Evictions(s, before) && P.Takes(L, before, s', step)
  }

  /** s stands for this cache and disk and has this log and phase; no block has appeared or gone. */
  ghost predicate Reached(s: P.State, lh: seq<nat>, phase: P.Phase, bs: seq<Buf>, pins: seq<nat>, disk: Disk,
                          dirty: set<nat>, disk0: Disk) {
    var blocks := disk0.Keys;
    Stands(s, bs, pins, disk, dirty) && s.lh == lh && s.phase == phase && disk.Keys == blocks
  }

  lemma LogTakes(L: Layout, s: P.State, tail: nat, from: nat, to: nat)
    requires s.phase == P.Logging(tail) && tail < |s.lh| && from == s.lh[tail] && to == L.Slot(tail)
    requires P.Ready(s, from) && P.Ready(s, to)
    ensures P.Takes(L, s, RoundState(s, from, to, false).(phase := P.Logging(tail + 1)), P.WriteLogBlock)
  {
  }

  lemma LogIsStep(L: Layout, s: P.State, bs: seq<Buf>, pins: seq<nat>, disk: Disk, dirty: set<nat>, tail: nat, t: nat,
                  k: Round, bs': seq<Buf>, pins': seq<nat>, disk': Disk, from: nat, to: nat)
    returns (s1: P.State, s': P.State)
    requires |bs| == |pins| == NBUF && Keys(bs, disk) && PinnedValid(bs, pins) && Stands(s, bs, pins, disk, dirty)
    requires s.phase == P.Logging(tail) && tail < |s.lh| && from == s.lh[tail] && to == L.Slot(tail)
    requires Free(bs, from) && Free(bs, to) && from != to && from !in dirty && to !in dirty
    requires ReadTwo(bs, pins, disk, to, from, t, k) && Keys(bs', disk')
    requires RoundLeft(k.bs2, pins, disk, k.b2, k.b1, false, bs', pins', disk')
    ensures StepAfter(L, s, s1, s', P.WriteLogBlock)
    ensures Reached(s', s.lh, P.Logging(tail + 1), bs', pins', disk', dirty, disk)
  {
    LogRefines(s, bs, pins, disk, dirty, from, to, t, k, bs', pins', disk');
    s1 := RecycledTwo(s, bs, to, from, k);
    s' := RoundState(s1, from, to, false).(phase := P.Logging(tail + 1));
    LogTakes(L, s1, tail, from, to);
  }

  lemma InstallTakes(L: Layout, s: P.State, tail: nat, recovering: bool, src: nat, dst: nat, next: P.Phase)
    requires s.phase == if recovering then P.Replay(tail) else P.Installing(tail)
    requires next == if recovering then P.Replay(tail + 1) else P.Installing(tail + 1)
    requires tail < |s.lh| && dst == s.lh[tail] && src == L.Slot(tail) && P.Ready(s, src) && P.Ready(s, dst)
    ensures P.Takes(L, s, RoundState(s, src, dst, !recovering).(phase := next),
                    if recovering then P.ReplayBlock else P.InstallBlock)
  {
  }

  lemma InstallIsStep(L: Layout, s: P.State, bs: seq<Buf>, pins: seq<nat>, disk: Disk, dirty: set<nat>, tail: nat,
                      t: nat, recovering: bool, k: Round, bs': seq<Buf>, pins': seq<nat>, disk': Disk, src: nat,
                      dst: nat)
    returns (s1: P.State, s': P.State)
    requires |bs| == |pins| == NBUF && Keys(bs, disk) && PinnedValid(bs, pins) && Stands(s, bs, pins, disk, dirty)
    requires s.phase == if recovering then P.Replay(tail) else P.Installing(tail)
    requires tail < |s.lh| && dst == s.lh[tail] && src == L.Slot(tail)
    requires Free(bs, src) && Free(bs, dst) && src != dst && src !in dirty && dst !in dirty
    requires ReadTwo(bs, pins, disk, src, dst, t, k) && Keys(bs', disk')
    requires RoundLeft(k.bs2, pins, disk, k.b1, k.b2, !recovering, bs', pins', disk')
    ensures StepAfter(L, s, s1, s', if recovering then P.ReplayBlock else P.InstallBlock)
    ensures Reached(s', s.lh, if recovering then P.Replay(tail + 1) else P.Installing(tail + 1),
                    bs', pins', disk', dirty, disk)
  {
    InstallRefines(s, bs, pins, disk, dirty, src, dst, t, !recovering, k, bs', pins', disk');
    var next := if recovering then P.Replay(tail + 1) else P.Installing(tail + 1);
    s1 := RecycledTwo(s, bs, src, dst, k);
    s' := RoundState(s1, src, dst, !recovering).(phase := next);
    InstallTakes(L, s1, tail, recovering, src, dst, next);
  }

  /** The time for a header write: with the log once it is copied, with an empty list once it is installed. */
  ghost predicate HeaderDue(s: P.State, lh: seq<nat>) {
    match s.phase
    case Logging(tail) => tail == |s.lh| && lh == s.lh
    case Installing(tail) => tail == |s.lh| && lh == []
    case Replay(tail) => tail == |s.lh| && lh == []
    case _ => false
  }

  /** What the protocol calls it. */
  ghost function HeaderStep(s: P.State): (step: P.Step) {
    match s.phase
    case Logging(_) => P.WriteHeader
    case Installing(_) => P.EraseHeader
    case _ => P.ReplayErase
  }

  /** Where it leaves the protocol. */
  ghost function HeaderTo(s: P.State): (s': P.State) {
    match s.phase
    case Logging(_) => s.(phase := P.Installing(0))
    case Installing(_) => s.(lh := [], phase := P.Erased)
    case _ => s.(lh := [], phase := P.Running)
  }

  lemma HeaderTakes(L: Layout, s: P.State, lh: seq<nat>, v: Block)
    requires HeaderDue(s, lh) && |lh| <= LOGSIZE && P.Ready(s, L.start) && v == EncodeHeader(P.Contents(s, L.start), lh)
    ensures P.Takes(L, s, HeaderTo(P.Put(s, L.start, v)), HeaderStep(s))
  {
  }

  lemma HeadIsStep(L: Layout, s: P.State, bs: seq<Buf>, pins: seq<nat>, disk: Disk, dirty: set<nat>, t: nat,
                   lh: seq<nat>, data: Block, b: nat, bs1: seq<Buf>, bs': seq<Buf>, disk': Disk)
    returns (s1: P.State, s': P.State)
    requires |bs| == |pins| == NBUF && Keys(bs, disk) && PinnedValid(bs, pins) && Stands(s, bs, pins, disk, dirty)
    requires HeaderDue(s, lh) && |lh| <= LOGSIZE && L.start !in dirty && Free(bs, L.start)
    requires L.start in disk && data == Current(bs, disk, L.start)
    requires PutDone(bs, pins, disk, L.start, t, EncodeHeader(data, lh), b, bs1, bs', disk')
    ensures StepAfter(L, s, s1, s', HeaderStep(s)) && Reached(s', lh, HeaderTo(s).phase, bs', pins, disk', dirty, disk)
  {
    var v := EncodeHeader(data, lh);
    PutRefines(s, bs, pins, disk, dirty, L.start, t, v, b, bs1, bs', disk');
    s1 := Recycled(s, bs, b, L.start);
    assert EvictedTwo(s, s1, bs[b].blockno, s1, 0);
    s' := HeaderTo(P.Put(s1, L.start, v));
    HeaderTakes(L, s1, lh, v);
  }
}
