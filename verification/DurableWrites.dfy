/** The file system over the log: what a crash in the middle of a write leaves. The blocks that one transaction of
    filewrite logs (kernel/file.c, kernel/fs.c) are written by one operation of the log (kernel/log.c). */
module DurableWrites {
  import opened Options
  import opened Collections
  import opened Params
  import opened FsLayout
  import opened FsModel
  import opened FsWrites
  import opened InodeLayer
  import opened FileWrites
  import FsTrunc
  import LogLayout
  import CacheModel
  import Log
  import LogOperation
  import LogProtocol
  import LogTheorems

  // ---------------------------------------------------------------- the disk image of a file system

  /** How a block of the inode area is written. */
  type Encoding = seq<Inode> -> LogLayout.Block

  /** A block of bytes as the log moves it. */
  function Words(b: Block): (w: LogLayout.Block) {
    seq(NINDIRECT, j requires 0 <= j < NINDIRECT => Word(b, j))
  }

  /** The inodes kept in block n. */
  function InodesIn(sb: Super, inodes: seq<Inode>, n: nat): (r: seq<Inode>)
    requires n >= sb.inodestart
  {
    var a := (n - sb.inodestart) * IPB;
    if a >= |inodes| then [] else if a + IPB <= |inodes| then inodes[a..a + IPB] else inodes[a..]
  }

  function ImageAt(sb: Super, enc: Encoding, fs: Fs, n: nat): (b: LogLayout.Block) {
    if sb.inodestart <= n < sb.bmapstart then enc(InodesIn(sb, fs.inodes, n)) else Words(At(fs.block, n))
  }

  ghost function Image(sb: Super, enc: Encoding, fs: Fs, home: set<nat>): (d: LogLayout.Disk) {
    map n | n in home :: ImageAt(sb, enc, fs, n)
  }

  lemma InodesElsewhere(sb: Super, inodes: seq<Inode>, inodes': seq<Inode>, i: nat, n: nat)
    requires |inodes'| == |inodes| && (forall j | 0 <= j < |inodes| && j != i :: inodes'[j] == inodes[j])
    requires n >= sb.inodestart && n != sb.IBlock(i)
    ensures InodesIn(sb, inodes', n) == InodesIn(sb, inodes, n)
  {
    var a := (n - sb.inodestart) * IPB;
    assert !(a <= i < a + IPB);
    forall j | a <= j < a + IPB && j < |inodes| ensures inodes'[j] == inodes[j] { }
    var b := if a + IPB <= |inodes| then a + IPB else |inodes|;
    if a < |inodes| { assert inodes'[a..b] == inodes[a..b]; }
  }

  /** A block that was not logged has the image it had. */
  lemma ImageKept(sb: Super, enc: Encoding, fs: Fs, fs': Fs, logged: set<nat>, i: nat, n: nat)
    requires Covered(fs, fs', logged, i) && sb.IBlock(i) in logged && n !in logged
    ensures ImageAt(sb, enc, fs', n) == ImageAt(sb, enc, fs, n)
  {
    if sb.inodestart <= n < sb.bmapstart { InodesElsewhere(sb, fs.inodes, fs'.inodes, i, n); }
  }

  /** Overwriting blocks by what f gives for each. */
  lemma {:induction false} OverlayAt(d: LogLayout.Disk, blocks: seq<nat>, values: seq<LogLayout.Block>,
                                     f: nat -> LogLayout.Block, n: nat)
    requires |blocks| == |values| && forall k | 0 <= k < |blocks| :: values[k] == f(blocks[k])
    ensures n in LogOperation.Overlay(d, blocks, values) <==> n in d || n in blocks
    ensures n in blocks ==> LogOperation.Overlay(d, blocks, values)[n] == f(n)
    ensures n in d && n !in blocks ==> LogOperation.Overlay(d, blocks, values)[n] == d[n]
    decreases |blocks|
  {
    if blocks != [] {
      var m := |blocks| - 1;
      assert blocks == blocks[..m] + [blocks[m]];
      OverlayAt(d, blocks[..m], values[..m], f, n);
    }
  }

  /** Writing the logged blocks turns the image of fs into the image of fs'. */
  lemma OverlayIsImage(sb: Super, enc: Encoding, fs: Fs, fs': Fs, home: set<nat>, blocks: seq<nat>,
                       values: seq<LogLayout.Block>)
    requires |blocks| == |values|
             && (forall k | 0 <= k < |blocks| :: blocks[k] in home && values[k] == ImageAt(sb, enc, fs', blocks[k]))
    requires forall n: nat | n !in blocks :: ImageAt(sb, enc, fs', n) == ImageAt(sb, enc, fs, n)
    ensures LogOperation.Overlay(Image(sb, enc, fs, home), blocks, values) == Image(sb, enc, fs', home)
  {
    var d, d' := LogOperation.Overlay(Image(sb, enc, fs, home), blocks, values), Image(sb, enc, fs', home);
    forall n: nat
      ensures n in d <==> n in d'
      ensures n in d && n in d' ==> d[n] == d'[n]
    {
      OverlayAt(Image(sb, enc, fs, home), blocks, values, x => ImageAt(sb, enc, fs', x), n);
    }
  }

  // ---------------------------------------------------------------- where the file system lies

  /** The file system's blocks lie outside the log, which is large enough for any operation, and the inode area holds
      count inodes. */
  ghost predicate Placed(L: LogLayout.Layout, disk: LogLayout.Disk, sb: Super, count: nat) {
    && MAXOPBLOCKS < L.size && count <= (sb.bmapstart - sb.inodestart) * IPB
    && forall n | sb.inodestart <= n < sb.size :: n in disk && !L.InLog(n)
  }

  ghost function Home(L: LogLayout.Layout, disk: LogLayout.Disk): (r: set<nat>) {
    set n | n in disk && !L.InLog(n)
  }

  lemma {:induction false} DataPlaced(sb: Super, fs: Fs, own: map<nat, Owner>, i: nat, a: nat, b: nat, x: nat)
    requires FsOk(sb, fs, own) && i < |fs.inodes| && b <= MAXFILE && x in BlocksOf(fs, i, a, b) && x != 0
    ensures sb.datastart <= x < sb.size
    decreases b
  {
    if x == Ptr(fs, i, b - 1) {
      assert PtrOk(fs, own, i, b - 1);
      assert OwnOk(sb, fs, own, x);
    } else {
      DataPlaced(sb, fs, own, i, a, b - 1, x);
    }
  }

  /** Every block a write logs is one of the file system's. */
  lemma LoggedPlaced(sb: Super, fs: Fs, own: map<nat, Owner>, i: nat, off: nat, n: nat, logged: set<nat>, x: nat)
    requires FsOk(sb, fs, own) && i < |fs.inodes| <= (sb.bmapstart - sb.inodestart) * IPB && off + n <= MAXFILE * BSIZE
    requires LoggedOnly(sb, {}, logged, Reach(fs, i, off, n) + {sb.IBlock(i)}) && x in logged
    ensures sb.inodestart <= x < sb.size
  {
    if x in BlocksOf(fs, i, off / BSIZE, Upto(off, n)) && x != 0 {
      DataPlaced(sb, fs, own, i, off / BSIZE, Upto(off, n), x);
    } else if x == IndexPtr(fs, i) && x != 0 {
      assert RootOk(fs, own, i);
      assert OwnOk(sb, fs, own, x);
    }
  }

  // ---------------------------------------------------------------- one transaction

  /** A disk on which the new image is durable has room for it as the old disk had. */
  lemma ImageDurable(L: LogLayout.Layout, disk: LogLayout.Disk, disk': LogLayout.Disk, sb: Super, enc: Encoding, fs: Fs,
                     fs': Fs)
    requires Placed(L, disk, sb, |fs.inodes|) && |fs'.inodes| == |fs.inodes|
    requires LogLayout.Recoverable(L, disk') && LogLayout.Durable(L, disk') == Image(sb, enc, fs', Home(L, disk))
    ensures Home(L, disk') == Home(L, disk) && Placed(L, disk', sb, |fs'.inodes|)
  {
    assert LogLayout.Durable(L, disk').Keys == Home(L, disk')
           && Image(sb, enc, fs', Home(L, disk)).Keys == Home(L, disk);
    forall n | sb.inodestart <= n < sb.size
      ensures n in disk' && !L.InLog(n)
    {
      assert n in Home(L, disk);
    }
  }

  /** Blocks of the file system that cover what has changed lie outside the log, and make the one image into the other. */
  lemma CoveredBlocks(L: LogLayout.Layout, disk: LogLayout.Disk, sb: Super, enc: Encoding, fs: Fs, fs': Fs, i: nat,
                      logged: set<nat>, blocks: seq<nat>, values: seq<LogLayout.Block>)
    requires Placed(L, disk, sb, |fs.inodes|) && Covered(fs, fs', logged, i) && sb.IBlock(i) in logged
    requires forall x | x in logged :: sb.inodestart <= x < sb.size
    requires |blocks| == |values| && forall x :: x in blocks <==> x in logged
    requires forall k | 0 <= k < |blocks| :: values[k] == ImageAt(sb, enc, fs', blocks[k])
    ensures LogOperation.Writable(L, disk, blocks, {})
    ensures LogOperation.Overlay(Image(sb, enc, fs, Home(L, disk)), blocks, values) == Image(sb, enc, fs', Home(L, disk))
  {
    forall k | 0 <= k < |blocks|
      ensures blocks[k] in Home(L, disk)
    {
      assert blocks[k] in blocks;
    }
    forall x: nat | x !in blocks
      ensures ImageAt(sb, enc, fs', x) == ImageAt(sb, enc, fs, x)
    {
      ImageKept(sb, enc, fs, fs', logged, i, x);
    }
    OverlayIsImage(sb, enc, fs, fs', Home(L, disk), blocks, values);
  }

  /** What a write has logged. */
  lemma LoggedBlocks(L: LogLayout.Layout, disk: LogLayout.Disk, sb: Super, enc: Encoding, fs: Fs, fs': Fs,
                     own: map<nat, Owner>, i: nat, off: nat, n: nat, logged: set<nat>, blocks: seq<nat>,
                     values: seq<LogLayout.Block>)
    requires Placed(L, disk, sb, |fs.inodes|) && FsOk(sb, fs', own) && i < |fs'.inodes| && off + n <= MAXFILE * BSIZE
    requires Covered(fs, fs', logged, i) && sb.IBlock(i) in logged
    requires LoggedOnly(sb, {}, logged, Reach(fs', i, off, n) + {sb.IBlock(i)})
    requires |blocks| == |values| && forall x :: x in blocks <==> x in logged
    requires forall k | 0 <= k < |blocks| :: values[k] == ImageAt(sb, enc, fs', blocks[k])
    ensures LogOperation.Writable(L, disk, blocks, {})
    ensures LogOperation.Overlay(Image(sb, enc, fs, Home(L, disk)), blocks, values) == Image(sb, enc, fs', Home(L, disk))
  {
    forall x | x in logged
      ensures sb.inodestart <= x < sb.size
    {
      LoggedPlaced(sb, fs', own, i, off, n, logged, x);
    }
    CoveredBlocks(L, disk, sb, enc, fs, fs', i, logged, blocks, values);
  }

  /** Nothing is under way in the log, and what is durable is the image of the file system fs. */
  ghost predicate Holding(log: Log.Log, sb: Super, enc: Encoding, fs: Fs)
    reads log, log.cache
  {
    && log.cache.Valid() && CacheModel.Quiet(log.cache.buf, log.cache.pins, log.cache.disk, [], {})
    && log.lh == [] && log.outstanding == 0 && !log.committing
    && LogLayout.Recoverable(log.L, log.cache.disk) && LogLayout.HeaderIs(log.L, log.cache.disk, [])
    && Placed(log.L, log.cache.disk, sb, |fs.inodes|)
    && LogLayout.Durable(log.L, log.cache.disk) == Image(sb, enc, fs, Home(log.L, log.cache.disk))
  }

  /** The blocks logged between fs and fs', written as one operation. */
  method CommitLogged(log: Log.Log, t: nat, blocks: seq<nat>, values: seq<LogLayout.Block>, ghost sb: Super,
                      ghost enc: Encoding, ghost fs: Fs, ghost fs': Fs)
    returns (ok: bool, ghost n: nat)
    requires Holding(log, sb, enc, fs) && |fs'.inodes| == |fs.inodes| && |blocks| == |values| <= MAXOPBLOCKS
    requires LogOperation.Writable(log.L, log.cache.disk, blocks, {})
    requires var home := Home(log.L, log.cache.disk);
             LogOperation.Overlay(Image(sb, enc, fs, home), blocks, values) == Image(sb, enc, fs', home)
    modifies log`lh, log`outstanding, log`committing, log.cache
    ensures Log.CommitTrace(log.L, old(log.cache.trace), log.cache.trace, n,
                            Image(sb, enc, fs, Home(log.L, old(log.cache.disk))),
                            Image(sb, enc, fs', Home(log.L, old(log.cache.disk))))
    ensures ok ==> Holding(log, sb, enc, fs') && Home(log.L, log.cache.disk) == Home(log.L, old(log.cache.disk))
    ensures !ok ==> CacheModel.NoBuffers(log.cache.buf)
  {
    ok, n := LogOperation.Operation(log, t, blocks, values, {});
    if ok { ImageDurable(log.L, old(log.cache.disk), log.cache.disk, sb, enc, fs, fs'); }
  }

  /** One transaction: writei of a chunk, its blocks logged and committed. Every disk it leaves behind recovers to the
      image of the file system before the write or of that after it, and both are consistent. */
  method CommitChunk(log: Log.Log, t: nat, fs: FileSystem, f: File, data: seq<Byte>, enc: Encoding)
    returns (w: Option<int>, ok: bool, ghost n: nat)
    requires fs.Valid() && Holding(log, fs.sb, enc, fs.State())
    requires f.ip < |fs.inodes| && fs.inodes[f.ip].kind != 0 && f.off < U32 && 0 < |data| <= MAXCHUNK
    modifies fs, f`off, log`lh, log`outstanding, log`committing, log.cache
    ensures w.None? ==> Full(fs.sb, fs.block) && log.cache.trace == old(log.cache.trace)
    ensures w.Some? ==> fs.Valid() && w.value == if Accepts(old(fs.inodes[f.ip].size), old(f.off), |data|) then |data| else -1
    ensures w == Some(-1) ==> fs.State() == old(fs.State()) && f.off == old(f.off)
    ensures w.Some? && w.value > 0 ==>
              Spliced(old(fs.State()), fs.State(), f.ip, old(f.off), data) && f.off == old(f.off) + |data|
    ensures w.Some? ==>
              Log.CommitTrace(log.L, old(log.cache.trace), log.cache.trace, n,
                              Image(fs.sb, enc, old(fs.State()), Home(log.L, old(log.cache.disk))),
                              Image(fs.sb, enc, fs.State(), Home(log.L, old(log.cache.disk))))
    ensures w.Some? && ok ==> Holding(log, fs.sb, enc, fs.State()) && Home(log.L, log.cache.disk) == Home(log.L, old(log.cache.disk))
    ensures w.Some? && !ok ==> CacheModel.NoBuffers(log.cache.buf)
  {
    ok, n := true, 0;
    w := WriteChunk(fs, f, data);
    if w.None? || w == Some(-1) { return; }
    var blocks := Listed(fs.logged);
    var sb, now := fs.sb, Fs(fs.block, fs.inodes);
    var values := seq(|blocks|, k requires 0 <= k < |blocks| => ImageAt(sb, enc, now, blocks[k]));
    LoggedBlocks(log.L, log.cache.disk, sb, enc, old(fs.State()), now, fs.own, f.ip, old(f.off), |data|, fs.logged, blocks, values);
    ok, n := CommitLogged(log, t, blocks, values, sb, enc, old(fs.State()), now);
  }

  // ---------------------------------------------------------------- truncation

  /** itrunc logs at most the bitmap and the inode's block, all of them the file system's. */
  lemma TruncLogs(sb: Super, logged: set<nat>, i: nat, count: nat)
    requires sb.Ok() && i < count <= (sb.bmapstart - sb.inodestart) * IPB && LoggedOnly(sb, {}, logged, {sb.IBlock(i)})
    ensures |logged| <= (sb.size - 1) / BPB + 2
    ensures forall x | x in logged :: sb.inodestart <= x < sb.size
  {
    var bits := Interval(sb.bmapstart, (sb.size - 1) / BPB + 1);
    SubsetCount(logged, bits + {sb.IBlock(i)});
    assert i / IPB < sb.bmapstart - sb.inodestart;
  }

  /** One transaction: itrunc, its blocks logged and committed. Every disk it leaves behind recovers to the image of the
      file system before or of that after, in which the file is empty, and both are consistent. It keeps to the blocks
      that an operation may log on any disk of up to nine bitmap blocks. */
  method CommitTrunc(log: Log.Log, t: nat, fs: FileSystem, i: nat, enc: Encoding)
    returns (fits: bool, ok: bool, ghost n: nat)
    requires fs.Valid() && Holding(log, fs.sb, enc, fs.State()) && i < |fs.inodes|
    modifies fs, log`lh, log`outstanding, log`committing, log.cache
    ensures fs.Valid() && fs.inodes == old(fs.inodes)[i := Inode(old(fs.inodes[i].kind), 0, NoAddrs())]
    ensures FsTrunc.OthersKept(old(fs.State()), fs.State(), i)
    ensures (fits <==> |fs.logged| <= MAXOPBLOCKS) && ((fs.sb.size - 1) / BPB + 2 <= MAXOPBLOCKS ==> fits)
    ensures fits ==> Log.CommitTrace(log.L, old(log.cache.trace), log.cache.trace, n,
                                     Image(fs.sb, enc, old(fs.State()), Home(log.L, old(log.cache.disk))),
                                     Image(fs.sb, enc, fs.State(), Home(log.L, old(log.cache.disk))))
    ensures fits && ok ==> Holding(log, fs.sb, enc, fs.State())
    ensures fits && !ok ==> CacheModel.NoBuffers(log.cache.buf)
  {
    ok, n := true, 0;
    fs.logged := {};
    FsTrunc.ITrunc(fs, i);
    TruncLogs(fs.sb, fs.logged, i, |fs.inodes|);
    fits := |fs.logged| <= MAXOPBLOCKS;
    if !fits { return; }
    var blocks := Listed(fs.logged);
    var sb, now := fs.sb, Fs(fs.block, fs.inodes);
    var values := seq(|blocks|, k requires 0 <= k < |blocks| => ImageAt(sb, enc, now, blocks[k]));
    CoveredBlocks(log.L, log.cache.disk, sb, enc, old(fs.State()), now, i, fs.logged, blocks, values);
    ok, n := CommitLogged(log, t, blocks, values, sb, enc, old(fs.State()), now);
  }

  // ---------------------------------------------------------------- a whole filewrite

  /** The disk recovers to the image of the consistent file system fs', in which the first d bytes of src have been
      written to file ip of fs0 at off and nothing else has changed. */
  ghost predicate PartWay(L: LogLayout.Layout, disk: LogLayout.Disk, sb: Super, enc: Encoding, home: set<nat>, fs0: Fs,
                          ip: nat, off: nat, src: seq<Byte>, fs': Fs, own: map<nat, Owner>, d: nat) {
    && Log.RecoversTo(L, disk, Image(sb, enc, fs', home))
    && FsOk(sb, fs', own) && FileProgress(fs0, fs', ip, off, src, d)
  }

  ghost predicate Recovers(L: LogLayout.Layout, disk: LogLayout.Disk, sb: Super, enc: Encoding, home: set<nat>, fs0: Fs,
                           ip: nat, off: nat, src: seq<Byte>, d: nat) {
    exists fs', own :: PartWay(L, disk, sb, enc, home, fs0, ip, off, src, fs', own, d)
  }

  /** The disks from a on recover to the file system with the first ds[0], ds[1], ... bytes of src written. */
  ghost predicate AllRecover(L: LogLayout.Layout, trace: seq<LogLayout.Disk>, a: nat, sb: Super, enc: Encoding,
                             home: set<nat>, fs0: Fs, ip: nat, off: nat, src: seq<Byte>, ds: seq<nat>) {
    && |trace| == a + |ds|
    && forall k: nat {:trigger RecoversAt(L, trace, a, sb, enc, home, fs0, ip, off, src, ds, k)} | k < |ds| ::
         RecoversAt(L, trace, a, sb, enc, home, fs0, ip, off, src, ds, k)
  }

  ghost predicate RecoversAt(L: LogLayout.Layout, trace: seq<LogLayout.Disk>, a: nat, sb: Super, enc: Encoding,
                             home: set<nat>, fs0: Fs, ip: nat, off: nat, src: seq<Byte>, ds: seq<nat>, k: nat)
    requires k < |ds| && |trace| == a + |ds|
  {
    Recovers(L, trace[a + k], sb, enc, home, fs0, ip, off, src, ds[k])
  }

  /** Where filewrite of n bytes can stop: after some number of whole chunks, or at the end. */
  predicate AtChunk(d: nat, n: int) { d % MAXCHUNK == 0 || d == n }

  /** ds lies between lo and hi, never falls, and has only ends of chunks. */
  ghost predicate Ascending(ds: seq<nat>, lo: nat, hi: nat, n: int) {
    && (forall k | 0 <= k < |ds| :: lo <= ds[k] <= hi && AtChunk(ds[k], n))
    && forall j, k | 0 <= j < k < |ds| :: ds[j] <= ds[k]
  }

  lemma AscendingJoins(ds1: seq<nat>, ds2: seq<nat>, lo: nat, mid: nat, hi: nat, n: int)
    requires Ascending(ds1, lo, mid, n) && Ascending(ds2, mid, hi, n) && lo <= mid <= hi
    ensures Ascending(ds1 + ds2, lo, hi, n)
  {
  }

  /** A write of at most one chunk is done or not. */
  lemma OneChunk(ds: seq<nat>, n: nat)
    requires Ascending(ds, 0, n, n) && n <= MAXCHUNK
    ensures forall k | 0 <= k < |ds| :: ds[k] == 0 || ds[k] == n
  {
    forall k | 0 <= k < |ds|
      ensures ds[k] == 0 || ds[k] == n
    {
      assert AtChunk(ds[k], n);
    }
  }

  /** The disks that one chunk leaves behind: those before the header write recover to d1 bytes, the others to d2. */
  lemma ChunkRecovers(L: LogLayout.Layout, trace: seq<LogLayout.Disk>, trace': seq<LogLayout.Disk>, n: nat, sb: Super,
                      enc: Encoding, home: set<nat>, fs0: Fs, ip: nat, off: nat, src: seq<Byte>, fs1: Fs,
                      own1: map<nat, Owner>, d1: nat, fs2: Fs, own2: map<nat, Owner>, d2: nat, total: int)
    returns (ds: seq<nat>)
    requires Log.CommitTrace(L, trace, trace', n, Image(sb, enc, fs1, home), Image(sb, enc, fs2, home)) && d1 <= d2
    requires AtChunk(d1, total) && AtChunk(d2, total)
    requires FsOk(sb, fs1, own1) && FileProgress(fs0, fs1, ip, off, src, d1)
    requires FsOk(sb, fs2, own2) && FileProgress(fs0, fs2, ip, off, src, d2)
    ensures trace <= trace' && AllRecover(L, trace', |trace|, sb, enc, home, fs0, ip, off, src, ds)
            && Ascending(ds, d1, d2, total)
  {
    ds := seq(|trace'| - |trace|, k => if k < n then d1 else d2);
    forall k: nat | k < |ds|
      ensures RecoversAt(L, trace', |trace|, sb, enc, home, fs0, ip, off, src, ds, k)
    {
      if k < n {
        assert Log.RecoversTo(L, trace'[|trace| + k], Image(sb, enc, fs1, home));
        assert PartWay(L, trace'[|trace| + k], sb, enc, home, fs0, ip, off, src, fs1, own1, d1);
      } else {
        assert Log.RecoversTo(L, trace'[|trace| + k], Image(sb, enc, fs2, home));
        assert PartWay(L, trace'[|trace| + k], sb, enc, home, fs0, ip, off, src, fs2, own2, d2);
      }
    }
  }

  lemma RecoverJoins(L: LogLayout.Layout, trace0: seq<LogLayout.Disk>, trace1: seq<LogLayout.Disk>,
                     trace2: seq<LogLayout.Disk>, sb: Super, enc: Encoding, home: set<nat>, fs0: Fs, ip: nat, off: nat,
                     src: seq<Byte>, ds1: seq<nat>, ds2: seq<nat>, d1: nat, d2: nat, n: int)
    requires trace0 <= trace1 <= trace2
    requires AllRecover(L, trace1, |trace0|, sb, enc, home, fs0, ip, off, src, ds1) && Ascending(ds1, 0, d1, n)
    requires AllRecover(L, trace2, |trace1|, sb, enc, home, fs0, ip, off, src, ds2)
    requires Ascending(ds2, d1, d2, n) && d1 <= d2
    ensures AllRecover(L, trace2, |trace0|, sb, enc, home, fs0, ip, off, src, ds1 + ds2)
    ensures Ascending(ds1 + ds2, 0, d2, n)
  {
    var ds := ds1 + ds2;
    AscendingJoins(ds1, ds2, 0, d1, d2, n);
    forall k: nat | k < |ds|
      ensures RecoversAt(L, trace2, |trace0|, sb, enc, home, fs0, ip, off, src, ds, k)
    {
      if k < |ds1| {
        assert RecoversAt(L, trace1, |trace0|, sb, enc, home, fs0, ip, off, src, ds1, k);
      } else {
        assert RecoversAt(L, trace2, |trace1|, sb, enc, home, fs0, ip, off, src, ds2, k - |ds1|);
      }
    }
  }

  /** How far the write is after a chunk that was accepted, or refused. */
  lemma ChunkOutcome(fs0: Fs, fs1: Fs, fs2: Fs, ip: nat, off: nat, at: nat, src: seq<Byte>, i: nat, m: nat, n: nat,
                     data: seq<Byte>, next: nat)
    requires FileProgress(fs0, fs1, ip, off, src, i) && InodesOk(fs0) && at == off + i
    requires 0 < m && i + m <= n <= |src| && data == src[i..i + m]
    requires if next == i then fs2 == fs1 && !Accepts(fs1.inodes[ip].size, at, m)
             else next == i + m && Accepts(fs1.inodes[ip].size, at, m) && Spliced(fs1, fs2, ip, at, data)
    ensures FileProgress(fs0, fs2, ip, off, src, next)
    ensures next == i ==> !Accepts(fs0.inodes[ip].size, off, n)
  {
    if next == i {
      ChunkRefused(fs0, fs1, ip, off, src, i, m, n);
    } else {
      NextChunk(fs0, fs1, fs2, ip, off, at, src, i, m, data);
    }
  }

  /** The next end of a chunk. */
  lemma NextEnd(i: nat, n1: nat, end: nat, n: int)
    requires AtChunk(i, n) && i < n && n1 == (if n - i > MAXCHUNK then MAXCHUNK else n - i) && end == i + n1
    ensures AtChunk(end, n)
  {
  }

  /** The disks from a on recover to more and more of the write, up to its first d bytes. */
  ghost predicate Recorded(L: LogLayout.Layout, trace: seq<LogLayout.Disk>, a: nat, sb: Super, enc: Encoding,
                           home: set<nat>, fs0: Fs, ip: nat, off: nat, src: seq<Byte>, ds: seq<nat>, d: nat, n: int) {
    var top := d;
    AllRecover(L, trace, a, sb, enc, home, fs0, ip, off, src, ds) && Ascending(ds, 0, top, n)
  }

  /** One round of filewrite's loop, which ends at end. */
  method CommitNext(log: Log.Log, t: nat, fs: FileSystem, f: File, src: seq<Byte>, i: nat, n1: nat, end: nat,
                    enc: Encoding, ghost fs0: Fs, ghost off: nat, ghost n: nat)
    returns (w: Option<int>, next: nat, ok: bool, ghost ds: seq<nat>)
    requires fs.Valid() && Holding(log, fs.sb, enc, fs.State())
    requires FileProgress(fs0, fs.State(), f.ip, off, src, i) && InodesOk(fs0) && fs0.inodes[f.ip].kind != 0
    requires f.off == off + i < U32 && 0 < n1 <= MAXCHUNK && end == i + n1 <= n <= |src|
    requires AtChunk(i, n) && AtChunk(end, n)
    modifies fs, f`off, log`lh, log`outstanding, log`committing, log.cache
    ensures w.Some? ==> && fs.Valid() && (w.value == n1 || w.value == -1)
                        && next == (if w.value == n1 then end else i) && f.off == off + next < U32
                        && FileProgress(fs0, fs.State(), f.ip, off, src, next)
                        && (w.value == -1 ==> !Accepts(fs0.inodes[f.ip].size, off, n))
    ensures w.None? ==> Full(fs.sb, fs.block)
    ensures old(log.cache.trace) <= log.cache.trace
    ensures AllRecover(log.L, log.cache.trace, |old(log.cache.trace)|, fs.sb, enc, Home(log.L, old(log.cache.disk)),
                       fs0, f.ip, off, src, ds)
    ensures (next == i || next == end) && Ascending(ds, i, next, n)
    ensures w.Some? && ok ==> && Holding(log, fs.sb, enc, fs.State())
                              && Home(log.L, log.cache.disk) == Home(log.L, old(log.cache.disk))
    ensures w.Some? && !ok ==> CacheModel.NoBuffers(log.cache.buf)
  {
    next, ds := i, [];
    var at, data := f.off, src[i..end];
    ghost var fs1, own1 := fs.State(), fs.own;
    ghost var m;
    w, ok, m := CommitChunk(log, t, fs, f, data, enc);
    if w.None? { return; }
    if w.value == n1 { next := end; }
    ChunkOutcome(fs0, fs1, fs.State(), f.ip, off, at, src, i, n1, n, data, next);
    ds := ChunkRecovers(log.L, old(log.cache.trace), log.cache.trace, m, fs.sb, enc, Home(log.L, old(log.cache.disk)),
                        fs0, f.ip, off, src, fs1, own1, i, fs.State(), fs.own, next, n);
  }

  /** The same, after rounds that have left the disks of trace from trace0 on. */
  method CommitMore(log: Log.Log, t: nat, fs: FileSystem, f: File, src: seq<Byte>, i: nat, n1: nat, end: nat,
                    enc: Encoding, ghost fs0: Fs, ghost off: nat, ghost n: nat, ghost trace0: seq<LogLayout.Disk>,
                    ghost home: set<nat>, ghost ds0: seq<nat>)
    returns (w: Option<int>, next: nat, ok: bool, ghost ds: seq<nat>)
    requires fs.Valid() && Holding(log, fs.sb, enc, fs.State()) && home == Home(log.L, log.cache.disk)
    requires FileProgress(fs0, fs.State(), f.ip, off, src, i) && InodesOk(fs0) && fs0.inodes[f.ip].kind != 0
    requires f.off == off + i < U32 && 0 < n1 <= MAXCHUNK && end == i + n1 <= n <= |src|
    requires AtChunk(i, n) && AtChunk(end, n) && trace0 <= log.cache.trace
    requires Recorded(log.L, log.cache.trace, |trace0|, fs.sb, enc, home, fs0, f.ip, off, src, ds0, i, n)
    modifies fs, f`off, log`lh, log`outstanding, log`committing, log.cache
    ensures w.Some? ==> && fs.Valid() && (w.value == n1 || w.value == -1)
                        && next == (if w.value == n1 then end else i) && f.off == off + next < U32
                        && FileProgress(fs0, fs.State(), f.ip, off, src, next)
                        && (w.value == -1 ==> !Accepts(fs0.inodes[f.ip].size, off, n))
    ensures w.None? ==> Full(fs.sb, fs.block)
    ensures trace0 <= log.cache.trace && (next == i || next == end)
    ensures Recorded(log.L, log.cache.trace, |trace0|, fs.sb, enc, home, fs0, f.ip, off, src, ds, next, n)
    ensures w.Some? && ok ==> Holding(log, fs.sb, enc, fs.State()) && Home(log.L, log.cache.disk) == home
    ensures w.Some? && !ok ==> CacheModel.NoBuffers(log.cache.buf)
  {
    ghost var trace1 := log.cache.trace;
    ghost var more;
    w, next, ok, more := CommitNext(log, t, fs, f, src, i, n1, end, enc, fs0, off, n);
    RecoverJoins(log.L, trace0, trace1, log.cache.trace, fs.sb, enc, home, fs0, f.ip, off, src, ds0, more, i, next, n);
    ds := ds0 + more;
  }

  /** filewrite over the log. At whatever moment the machine stops, recovery finds a consistent file system in which
      the file has taken the first d bytes of the write for some d <= n, all of them or a number of whole chunks, and
      nothing else has changed; a later moment never finds fewer bytes, nor, where filewrite returns, more than it has
      written. A write of one chunk is found done or not (OneChunk). ds is the d of each disk, and far the most. */
  method CommitWrite(log: Log.Log, t: nat, fs: FileSystem, f: File, src: seq<Byte>, n: int, enc: Encoding)
    returns (r: Option<int>, ok: bool, ghost done: nat, ghost ds: seq<nat>, ghost far: nat)
    requires fs.Valid() && Holding(log, fs.sb, enc, fs.State())
    requires f.ip < |fs.inodes| && fs.inodes[f.ip].kind != 0 && f.off < U32 && n <= |src|
    modifies fs, f`off, log`lh, log`outstanding, log`committing, log.cache
    ensures Recorded(log.L, log.cache.trace, |old(log.cache.trace)|, fs.sb, enc, Home(log.L, old(log.cache.disk)),
                     old(fs.State()), f.ip, old(f.off), src, ds, far, n)
    ensures (far <= n || far == 0) && (r.Some? && ok ==> far == done)
    ensures r.None? ==> Full(fs.sb, fs.block)
    ensures r.Some? && ok ==>
              && fs.Valid() && Holding(log, fs.sb, enc, fs.State()) && f.off == old(f.off) + done && (done <= n || done == 0)
              && FileProgress(old(fs.State()), fs.State(), f.ip, old(f.off), src, done)
              && r.value == if f.writable && done == n then n else -1
    ensures r.Some? && ok && f.writable && n > 0 ==> (r.value == n <==> Accepts(old(fs.inodes[f.ip].size), old(f.off), n))
    ensures !ok ==> CacheModel.NoBuffers(log.cache.buf)
  {
    ok, done, ds, far := true, 0, [], 0;
    if !f.writable { return Some(-1), true, 0, [], 0; }
    var i := 0;
    ghost var home, trace0 := Home(log.L, log.cache.disk), log.cache.trace;
    while i < n
      invariant (i <= n || i == 0) && done == i && fs.Valid() && f.off == old(f.off) + i && f.off < U32
      invariant FileProgress(old(fs.State()), fs.State(), f.ip, old(f.off), src, i)
      invariant Holding(log, fs.sb, enc, fs.State()) && Home(log.L, log.cache.disk) == home
      invariant trace0 <= log.cache.trace && AtChunk(i, n)
      invariant Recorded(log.L, log.cache.trace, |trace0|, fs.sb, enc, home, old(fs.State()), f.ip, old(f.off), src,
                         ds, i, n)
    {
      var n1 := if n - i > MAXCHUNK then MAXCHUNK else n - i;
      var end := i + n1;
      NextEnd(i, n1, end, n);
      var w, next, alive;
      w, next, alive, ds := CommitMore(log, t, fs, f, src, i, n1, end, enc, old(fs.State()), old(f.off), n,
                                       trace0, home, ds);
      far := next;
      if w.None? { return None, true, done, ds, far; }
      if !alive { return Some(-1), false, done, ds, far; }
      if w.value != n1 { break; }
      i, done := next, next;
    }
    return Some(if i == n then n else -1), true, done, ds, done;
  }

  // ---------------------------------------------------------------- every interleaving

  /** The blocks d are the image of a consistent file system. */
  ghost predicate Consistent(sb: Super, enc: Encoding, d: LogLayout.Disk) {
    exists fs, own :: FsOk(sb, fs, own) && d == Image(sb, enc, fs, d.Keys)
  }

  /** In a run of any threads in which the blocks are consistent whenever no system call is in progress, the home
      blocks are consistent after every crash, once recovery is complete. */
  lemma ConsistentAfterCrash(L: LogLayout.Layout, ss: seq<LogProtocol.State>, st: seq<LogProtocol.Step>, i: nat, k: nat,
                             sb: Super, enc: Encoding)
    requires LogTheorems.IsRun(L, ss, st) && i < k < |ss| && st[i] == LogProtocol.Crash
             && ss[k].phase == LogProtocol.Running
    requires forall x | i < x < k :: LogTheorems.IsRecovery(st[x])
    requires forall j | 0 <= j <= i && ss[j].outstanding == 0 :: Consistent(sb, enc, LogTheorems.View(L, ss[j]).m)
    ensures Consistent(sb, enc, map b | b in ss[k].disk && !L.InLog(b) :: ss[k].disk[b])
  {
    LogTheorems.RecoveryKeeps(L, ss, st, i, k, d => Consistent(sb, enc, d));
  }
}
