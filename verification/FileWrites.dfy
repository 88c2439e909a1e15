/** writei (kernel/fs.c) and filewrite's loop over it (kernel/file.c). */
module FileWrites {
  import opened Options
  import opened Collections
  import opened Params
  import opened FsLayout
  import opened FsModel
  import opened FsSteps
  import opened FsWrites
  import opened InodeLayer

  const MAXCHUNK: nat := 3072          // ((MAXOPBLOCKS - 1 - 1 - 2) / 2) * BSIZE

  /** The blocks that a write of n bytes at off may log besides the bitmap and the inode: its data blocks and
      the indirect block. */
  ghost function Reach(fs: Fs, i: nat, off: nat, n: nat): (r: set<nat>)
    requires i < |fs.inodes| && off + n <= MAXFILE * BSIZE
  {
    BlocksOf(fs, i, off / BSIZE, Upto(off, n)) + {IndexPtr(fs, i)}
  }

  /** Writing data at off has been done, but for the size. */
  ghost predicate Progress(sb: Super, fs0: Fs, logged0: set<nat>, fs: Fs, logged: set<nat>, i: nat, off: nat,
                           data: seq<Byte>) {
    && Wrote(fs0, fs, i, off, data) && PtrsKept(fs0, fs) && Mapped(fs, i, off / BSIZE, Upto(off, |data|))
    && LoggedOnly(sb, logged0, logged, Reach(fs, i, off, |data|)) && Covered(fs0, fs, logged, i)
    && BitsFor(sb, logged0, logged, fs0, fs, i, off / BSIZE, Upto(off, |data|))
  }

  lemma NoProgress(sb: Super, fs: Fs, logged: set<nat>, i: nat, off: nat)
    requires i < |fs.inodes| && off <= MAXFILE * BSIZE
    ensures Progress(sb, fs, logged, fs, logged, i, off, [])
  {
    WroteNothing(fs, i, off);
  }

  lemma UptoStep(off: nat, at: nat, tot: nat, m: nat)
    requires at == off + tot && m > 0 && at % BSIZE + m <= BSIZE && (tot == 0 || at % BSIZE == 0)
    ensures Upto(off, tot + m) == at / BSIZE + 1 && Upto(off, tot) == at / BSIZE
  {
  }

  /** The blocks reached so far, with one more. */
  lemma ReachStep(fs1: Fs, fs: Fs, i: nat, off: nat, at: nat, tot: nat, m: nat, x: nat)
    requires i < |fs1.inodes| && PtrsKept(fs1, fs) && off + tot + m <= MAXFILE * BSIZE
    requires at == off + tot && m > 0 && at % BSIZE + m <= BSIZE && (tot == 0 || at % BSIZE == 0)
    requires Mapped(fs1, i, off / BSIZE, Upto(off, tot)) && x != 0
    requires x in Reach(fs1, i, off, tot) || x in {Ptr(fs, i, at / BSIZE), IndexPtr(fs, i)}
    ensures x in Reach(fs, i, off, tot + m)
  {
    UptoStep(off, at, tot, m);
    BlocksSame(fs1, fs, i, off / BSIZE, Upto(off, tot));
  }

  lemma MappedStep(fs1: Fs, fs: Fs, i: nat, off: nat, at: nat, tot: nat, m: nat)
    requires i < |fs1.inodes| && PtrsKept(fs1, fs) && off + tot + m <= MAXFILE * BSIZE
    requires at == off + tot && m > 0 && at % BSIZE + m <= BSIZE && (tot == 0 || at % BSIZE == 0)
    requires Mapped(fs1, i, off / BSIZE, Upto(off, tot)) && Ptr(fs, i, at / BSIZE) != 0
    ensures Mapped(fs, i, off / BSIZE, Upto(off, tot + m))
  {
    UptoStep(off, at, tot, m);
    forall bn: nat | off / BSIZE <= bn < Upto(off, tot + m) && bn < MAXFILE ensures Ptr(fs, i, bn) != 0 {
      assert bn < Upto(off, tot) ==> Ptr(fs1, i, bn) != 0;
    }
  }

  /** The blocks logged so far, with those of one more round. */
  lemma LoggedStep(sb: Super, logged0: set<nat>, fs1: Fs, logged1: set<nat>, fs: Fs, logged: set<nat>, i: nat, off: nat,
                   at: nat, tot: nat, m: nat)
    requires i < |fs1.inodes| && PtrsKept(fs1, fs) && off + tot + m <= MAXFILE * BSIZE
    requires at == off + tot && m > 0 && at % BSIZE + m <= BSIZE && (tot == 0 || at % BSIZE == 0)
    requires Mapped(fs1, i, off / BSIZE, Upto(off, tot)) && LoggedOnly(sb, logged0, logged1, Reach(fs1, i, off, tot))
    requires LoggedOnly(sb, logged1, logged, {Ptr(fs, i, at / BSIZE), IndexPtr(fs, i)})
    ensures LoggedOnly(sb, logged0, logged, Reach(fs, i, off, tot + m))
  {
    forall x | x in logged && x !in logged0 && !InBitmap(sb, x)
      ensures x in Reach(fs, i, off, tot + m) && x != 0
    {
      ReachStep(fs1, fs, i, off, at, tot, m, x);
    }
  }

  lemma BitsStep(sb: Super, logged0: set<nat>, logged1: set<nat>, logged: set<nat>, fs0: Fs, fs1: Fs, fs: Fs, i: nat,
                 off: nat, at: nat, tot: nat, m: nat)
    requires PtrsKept(fs0, fs1) && PtrsKept(fs1, fs)
    requires at == off + tot && m > 0 && at % BSIZE + m <= BSIZE && (tot == 0 || at % BSIZE == 0)
    requires BitsFor(sb, logged0, logged1, fs0, fs1, i, off / BSIZE, Upto(off, tot))
    requires BitsFor(sb, logged1, logged, fs1, fs, i, at / BSIZE, at / BSIZE + 1)
    ensures BitsFor(sb, logged0, logged, fs0, fs, i, off / BSIZE, Upto(off, tot + m))
  {
    UptoStep(off, at, tot, m);
    BitsJoin(sb, logged0, logged1, logged, fs0, fs1, fs, i, off / BSIZE, Upto(off, tot), at / BSIZE, at / BSIZE + 1,
             off / BSIZE, Upto(off, tot + m));
  }

  /** One more round of writei's loop. */
  lemma ProgressStep(sb: Super, fs0: Fs, logged0: set<nat>, fs1: Fs, logged1: set<nat>, fs: Fs, logged: set<nat>,
                     i: nat, off: nat, at: nat, a: seq<Byte>, b: seq<Byte>)
    requires Progress(sb, fs0, logged0, fs1, logged1, i, off, a) && at == off + |a| && Wrote(fs1, fs, i, at, b)
             && PtrsKept(fs1, fs)
    requires |b| > 0 && at % BSIZE + |b| <= BSIZE && (|a| == 0 || at % BSIZE == 0) && Ptr(fs, i, at / BSIZE) != 0
    requires LoggedOnly(sb, logged1, logged, {Ptr(fs, i, at / BSIZE), IndexPtr(fs, i)}) && Covered(fs1, fs, logged, i)
    requires BitsFor(sb, logged1, logged, fs1, fs, i, at / BSIZE, at / BSIZE + 1)
    ensures Progress(sb, fs0, logged0, fs, logged, i, off, a + b)
  {
    WroteMore(fs0, fs1, fs1, fs, i, off, a, b, at);
    KeptTrans(fs0, fs1, fs);
    CoveredTrans(fs0, fs1, fs, logged1, logged, i);
    MappedStep(fs1, fs, i, off, at, |a|, |b|);
    BitsStep(sb, logged0, logged1, logged, fs0, fs1, fs, i, off, at, |a|, |b|);
    LoggedStep(sb, logged0, fs1, logged1, fs, logged, i, off, at, |a|, |b|);
  }

  /** One round of writei: part of one block. False stands for balloc's panic. */
  method WriteRound(fs: FileSystem, i: nat, at: nat, data: seq<Byte>) returns (ok: bool)
    requires fs.Valid() && i < |fs.inodes| && fs.inodes[i].kind != 0
    requires |data| > 0 && at % BSIZE + |data| <= BSIZE && at + |data| <= MAXFILE * BSIZE
    modifies fs
    ensures ok ==> && fs.Valid() && Wrote(old(fs.State()), fs.State(), i, at, data) && PtrsKept(old(fs.State()), fs.State())
                   && Ptr(fs.State(), i, at / BSIZE) != 0
                   && LoggedOnly(fs.sb, old(fs.logged), fs.logged, {Ptr(fs.State(), i, at / BSIZE), IndexPtr(fs.State(), i)})
                   && Covered(old(fs.State()), fs.State(), fs.logged, i)
                   && BitsFor(fs.sb, old(fs.logged), fs.logged, old(fs.State()), fs.State(), i, at / BSIZE, at / BSIZE + 1)
    ensures !ok ==> Full(fs.sb, fs.block)
  {
    var p := fs.Bmap(i, at / BSIZE);
    if p.None? { return false; }
    ghost var fs1, logged1 := fs.State(), fs.logged;
    fs.block := fs.block[p.value := Patch(At(fs.block, p.value), at % BSIZE, data)];
    fs.logged := fs.logged + {p.value};
    RoundDone(fs.sb, old(fs.State()), fs1, fs.own, i, at, data);
    CoveredTrans(old(fs.State()), fs1, fs.State(), logged1, fs.logged, i);
    RoundBits(fs.sb, old(fs.logged), logged1, old(fs.State()), fs1, fs.State(), fs.own, i, at / BSIZE);
    return true;
  }

  lemma RoundDone(sb: Super, fs: Fs, fs1: Fs, own: map<nat, Owner>, i: nat, at: nat, data: seq<Byte>)
    requires FsOk(sb, fs1, own) && SameFiles(fs, fs1) && PtrsKept(fs, fs1) && i < |fs.inodes|
    requires |data| > 0 && at % BSIZE + |data| <= BSIZE && at + |data| <= MAXFILE * BSIZE
             && Ptr(fs1, i, at / BSIZE) != 0
    ensures var fs' := WithData(fs1, Ptr(fs1, i, at / BSIZE), at % BSIZE, data);
            && FsOk(sb, fs', own) && Wrote(fs, fs', i, at, data) && PtrsKept(fs, fs') && PtrsKept(fs1, fs')
            && Ptr(fs', i, at / BSIZE) == Ptr(fs1, i, at / BSIZE) && IndexPtr(fs', i) == IndexPtr(fs1, i)
  {
    var fs' := WithData(fs1, Ptr(fs1, i, at / BSIZE), at % BSIZE, data);
    DataOk(sb, fs1, own, i, at / BSIZE, at % BSIZE, data);
    DataWrote(sb, fs1, own, i, at, data);
    WroteNothing(fs, i, at);
    WroteMore(fs, fs, fs1, fs', i, at, [], data, at);
    assert [] + data == data;
    forall j: nat, bn: nat | j < |fs1.inodes| && bn < MAXFILE ensures Ptr(fs', j, bn) == Ptr(fs1, j, bn) {
      DataPtrs(sb, fs1, own, i, at / BSIZE, at % BSIZE, data, j, bn);
    }
    KeptTrans(fs, fs1, fs');
  }

  /** The data block itself is not of the bitmap. */
  lemma RoundBits(sb: Super, logged: set<nat>, logged1: set<nat>, fs: Fs, fs1: Fs, fs': Fs, own: map<nat, Owner>,
                  i: nat, bn: nat)
    requires FsOk(sb, fs1, own) && PtrsKept(fs, fs1) && PtrsKept(fs1, fs') && i < |fs1.inodes| && bn < MAXFILE
    requires BitsFor(sb, logged, logged1, fs, fs1, i, bn, bn + 1) && Ptr(fs1, i, bn) != 0
    ensures BitsFor(sb, logged, logged1 + {Ptr(fs1, i, bn)}, fs, fs', i, bn, bn + 1)
  {
    var p := Ptr(fs1, i, bn);
    assert PtrOk(fs1, own, i, bn) && OwnOk(sb, fs1, own, p);
    BitsNone(sb, logged1, p, fs1, fs', i, bn, bn + 1);
    BitsJoin(sb, logged, logged1, logged1 + {p}, fs, fs1, fs', i, bn, bn + 1, bn, bn + 1, bn, bn + 1);
  }

  /** One more round, after those that wrote done. */
  method WriteMore(fs: FileSystem, i: nat, off: nat, at: nat, data: seq<Byte>, ghost fs0: Fs, ghost logged0: set<nat>,
                   ghost done: seq<Byte>)
    returns (ok: bool)
    requires fs.Valid() && i < |fs.inodes| && fs.inodes[i].kind != 0 && at == off + |done| && (|done| == 0 || at % BSIZE == 0)
    requires |data| > 0 && at % BSIZE + |data| <= BSIZE && at + |data| <= MAXFILE * BSIZE
    requires Progress(fs.sb, fs0, logged0, fs.State(), fs.logged, i, off, done)
    modifies fs
    ensures ok ==> fs.Valid() && Progress(fs.sb, fs0, logged0, fs.State(), fs.logged, i, off, done + data)
    ensures !ok ==> Full(fs.sb, fs.block)
  {
    ghost var fs1, logged1 := fs.State(), fs.logged;
    ok := WriteRound(fs, i, at, data);
    if ok { ProgressStep(fs.sb, fs0, logged0, fs1, logged1, fs.State(), fs.logged, i, off, at, done, data); }
  }

  /** A round of writei begins at the offset itself or at the start of a block. */
  predicate RoundStart(off: nat, tot: nat) { tot == 0 || (off + tot) % BSIZE == 0 }

  lemma RoundTaken(src: seq<Byte>, off: nat, tot: nat, m: nat)
    requires tot < |src| && m == FileSystem.Round(off + tot, |src| - tot)
    ensures 0 < m <= |src| - tot && (off + tot) % BSIZE + m <= BSIZE
    ensures tot + m < |src| ==> RoundStart(off, tot + m)
    ensures src[..tot] + src[tot..tot + m] == src[..tot + m]
  {
    assert (off + tot) + m == off + (tot + m);
  }

  /** The loop of writei. */
  method WriteLoop(fs: FileSystem, i: nat, off: nat, src: seq<Byte>) returns (ok: bool)
    requires fs.Valid() && i < |fs.inodes| && fs.inodes[i].kind != 0 && off + |src| <= MAXFILE * BSIZE
    modifies fs
    ensures ok ==> fs.Valid() && Progress(fs.sb, old(fs.State()), old(fs.logged), fs.State(), fs.logged, i, off, src)
    ensures !ok ==> Full(fs.sb, fs.block)
  {
    var tot := 0;
    NoProgress(fs.sb, fs.State(), fs.logged, i, off);
    ghost var done := [];
    while tot < |src|
      invariant tot <= |src| && done == src[..tot] && fs.Valid() && (tot < |src| ==> RoundStart(off, tot))
      invariant Progress(fs.sb, old(fs.State()), old(fs.logged), fs.State(), fs.logged, i, off, done)
    {
      var m := FileSystem.Round(off + tot, |src| - tot);
      RoundTaken(src, off, tot, m);
      var data := src[tot..tot + m];
      ok := WriteMore(fs, i, off, off + tot, data, old(fs.State()), old(fs.logged), done);
      if !ok { return; }
      done, tot := done + data, tot + m;
    }
    assert src[..tot] == src;
    return true;
  }

  /** writei accepts n bytes at off. */
  predicate Accepts(size: nat, off: nat, n: nat) {
    off <= size && off + n < U32 && off + n <= MAXFILE * BSIZE
  }

  /** writei. A write that is accepted splices exactly its bytes into file i, growing it if need be, and touches
      no other file; any other write returns -1 and changes nothing. None stands for balloc's panic. */
  method WriteI(fs: FileSystem, i: nat, off: nat, src: seq<Byte>) returns (r: Option<int>)
    requires fs.Valid() && i < |fs.inodes| && fs.inodes[i].kind != 0 && off < U32 && |src| < U32
    modifies fs
    ensures r.Some? ==> fs.Valid() && r.value == if Accepts(old(fs.inodes[i].size), off, |src|) then |src| else -1
    ensures r.None? ==> Full(fs.sb, fs.block)
    ensures !Accepts(old(fs.inodes[i].size), off, |src|) ==> r == Some(-1) && fs.State() == old(fs.State()) && fs.logged == old(fs.logged)
    ensures r.Some? && Accepts(old(fs.inodes[i].size), off, |src|) ==>
              && Spliced(old(fs.State()), fs.State(), i, off, src)
              && LoggedOnly(fs.sb, old(fs.logged), fs.logged, Reach(fs.State(), i, off, |src|) + {fs.sb.IBlock(i)})
              && Covered(old(fs.State()), fs.State(), fs.logged, i) && fs.sb.IBlock(i) in fs.logged
              && BitsFor(fs.sb, old(fs.logged) + {fs.sb.IBlock(i)}, fs.logged, old(fs.State()), fs.State(), i,
                         off / BSIZE, Upto(off, |src|))
  {
    if off > fs.inodes[i].size || (off + |src|) % U32 < off { return Some(-1); }
    if off + |src| > MAXFILE * BSIZE { return Some(-1); }
    var ok := WriteLoop(fs, i, off, src);
    if !ok { return None; }
    ghost var fs1, logged1 := fs.State(), fs.logged;
    FinishWrite(fs.sb, old(fs.State()), old(fs.logged), fs1, logged1, fs.own, i, off, src);
    if off + |src| > fs.inodes[i].size {
      fs.inodes := fs.inodes[i := fs.inodes[i].(size := off + |src|)];
    }
    fs.logged := fs.logged + {fs.sb.IBlock(i)};
    assert fs.State() == WithSize(fs1, i, NewSize(fs1.inodes[i].size, off, |src|));
    return Some(|src|);
  }

  lemma {:induction false} SizeBlocks(fs: Fs, i: nat, size: nat, a: nat, b: nat)
    requires i < |fs.inodes| && b <= MAXFILE
    ensures BlocksOf(WithSize(fs, i, size), i, a, b) == BlocksOf(fs, i, a, b)
    decreases b
  {
    if a < b {
      SizeBlocks(fs, i, size, a, b - 1);
      SizePtr(fs, i, size, i, b - 1);
    }
  }

  /** Setting the size gives the file no block, and the inode's block is logged in any case. */
  lemma SizeBits(sb: Super, logged0: set<nat>, logged: set<nat>, fs0: Fs, fs: Fs, i: nat, size: nat, a: nat, c: nat)
    requires BitsFor(sb, logged0, logged, fs0, fs, i, a, c) && i < |fs.inodes| == |fs0.inodes|
    ensures BitsFor(sb, logged0 + {sb.IBlock(i)}, logged + {sb.IBlock(i)}, fs0, WithSize(fs, i, size), i, a, c)
  {
    var fs' := WithSize(fs, i, size);
    forall x | x in logged && x !in logged0 && InBitmap(sb, x)
      ensures BitOf(sb, fs0, fs', i, a, c, x)
    {
      var b: nat :| Gained(fs0, fs, i, a, c, b) && x == sb.BBlock(b);
      if bn: nat :| NewAt(fs0, fs, i, bn, b) && a <= bn < c { assert NewAt(fs0, fs', i, bn, b); }
      assert Gained(fs0, fs', i, a, c, b);
    }
  }

  lemma FinishWrite(sb: Super, fs0: Fs, logged0: set<nat>, fs: Fs, logged: set<nat>, own: map<nat, Owner>, i: nat,
                    off: nat, src: seq<Byte>)
    requires FsOk(sb, fs, own) && InodesOk(fs0) && Progress(sb, fs0, logged0, fs, logged, i, off, src)
    requires i < |fs0.inodes| && fs0.inodes[i].kind != 0 && off <= fs0.inodes[i].size
    ensures i < |fs.inodes|
    ensures var fs' := WithSize(fs, i, NewSize(fs.inodes[i].size, off, |src|));
            && FsOk(sb, fs', own) && Spliced(fs0, fs', i, off, src)
            && LoggedOnly(sb, logged0, logged + {sb.IBlock(i)}, Reach(fs', i, off, |src|) + {sb.IBlock(i)})
            && Covered(fs0, fs', logged + {sb.IBlock(i)}, i)
            && BitsFor(sb, logged0 + {sb.IBlock(i)}, logged + {sb.IBlock(i)}, fs0, fs', i, off / BSIZE, Upto(off, |src|))
  {
    var size := NewSize(fs.inodes[i].size, off, |src|);
    SizeBits(sb, logged0, logged, fs0, fs, i, size, off / BSIZE, Upto(off, |src|));
    SizeOk(sb, fs, own, i, off, |src|, size);
    WroteContent(fs0, fs, i, off, src, size);
    SizeBlocks(fs, i, size, off / BSIZE, Upto(off, |src|));
  }

  // ---------------------------------------------------------------- filewrite

  /** An open file: the inode it is open on, its offset and whether it may be written. */
  class File {
    const ip: nat
    const writable: bool
    var off: nat
  }

  /** The first block of a write at off that may be new: a block that the offset lies inside of is there already. */
  function FirstNew(off: nat): (bn: nat) { if off % BSIZE == 0 then off / BSIZE else off / BSIZE + 1 }

  /** However it is aligned, a chunk reaches at most four blocks, and at most three that may be new. */
  lemma ChunkBlocks(off: nat, n: nat)
    requires n <= MAXCHUNK
    ensures Upto(off, n) <= off / BSIZE + 4 && Upto(off, n) <= FirstNew(off) + 3
  {
  }

  /** The bitmap blocks of blocks a .. b of file i. */
  ghost function BitBlocks(sb: Super, fs: Fs, i: nat, a: nat, b: nat): (r: set<nat>)
    requires i < |fs.inodes| && b <= MAXFILE
    decreases b
  {
    if a >= b then {} else BitBlocks(sb, fs, i, a, b - 1) + {sb.BBlock(Ptr(fs, i, b - 1))}
  }

  lemma {:induction false} BitCount(sb: Super, fs: Fs, i: nat, a: nat, b: nat)
    requires i < |fs.inodes| && b <= MAXFILE
    ensures |BitBlocks(sb, fs, i, a, b)| <= if a < b then b - a else 0
    decreases b
  {
    if a < b { BitCount(sb, fs, i, a, b - 1); }
  }

  lemma {:induction false} BitAmong(sb: Super, fs: Fs, i: nat, a: nat, b: nat, bn: nat)
    requires i < |fs.inodes| && b <= MAXFILE && a <= bn < b
    ensures sb.BBlock(Ptr(fs, i, bn)) in BitBlocks(sb, fs, i, a, b)
    decreases b
  {
    if bn < b - 1 { BitAmong(sb, fs, i, a, b - 1, bn); }
  }

  /** A write allocates no block for the one that its offset lies inside of. */
  lemma BitKnown(sb: Super, fs0: Fs, fs: Fs, i: nat, off: nat, c: nat, x: nat)
    requires NoHoles(fs0) && i < |fs.inodes| == |fs0.inodes| && off <= fs0.inodes[i].size && c <= MAXFILE
    requires BitOf(sb, fs0, fs, i, off / BSIZE, c, x)
    ensures x in BitBlocks(sb, fs, i, FirstNew(off), c) + {sb.BBlock(IndexPtr(fs, i))}
  {
    var b: nat :| Gained(fs0, fs, i, off / BSIZE, c, b) && x == sb.BBlock(b);
    if bn: nat :| NewAt(fs0, fs, i, bn, b) && off / BSIZE <= bn < c {
      assert NoHole(fs0, i, bn);
      assert off % BSIZE != 0 && bn == off / BSIZE ==> bn * BSIZE < off;
      BitAmong(sb, fs, i, FirstNew(off), c, bn);
    }
  }

  /** On any disk, a chunk's transaction logs at most four data blocks, the indirect block, the inode's block and one
      bitmap block for each block it allocates, of which there are at most four: all that MAXOPBLOCKS reserves. */
  lemma ChunkLogs(sb: Super, logged: set<nat>, fs0: Fs, fs: Fs, i: nat, off: nat, n: nat)
    requires NoHoles(fs0) && i < |fs.inodes| == |fs0.inodes| && off <= fs0.inodes[i].size
    requires off + n <= MAXFILE * BSIZE && n <= MAXCHUNK
    requires LoggedOnly(sb, {}, logged, Reach(fs, i, off, n) + {sb.IBlock(i)})
    requires BitsFor(sb, {sb.IBlock(i)}, logged, fs0, fs, i, off / BSIZE, Upto(off, n))
    ensures |logged| <= 10 == MAXOPBLOCKS
  {
    var c := Upto(off, n);
    ChunkBlocks(off, n);
    BlocksCount(fs, i, off / BSIZE, c);
    BitCount(sb, fs, i, FirstNew(off), c);
    var data, bits := BlocksOf(fs, i, off / BSIZE, c), BitBlocks(sb, fs, i, FirstNew(off), c);
    forall x | x in logged
      ensures x in data + bits + {IndexPtr(fs, i), sb.IBlock(i), sb.BBlock(IndexPtr(fs, i))}
    {
      if x != sb.IBlock(i) && InBitmap(sb, x) { BitKnown(sb, fs0, fs, i, off, c, x); }
    }
    SubsetCount(logged, data + bits + {IndexPtr(fs, i), sb.IBlock(i), sb.BBlock(IndexPtr(fs, i))});
    Three(data + bits, IndexPtr(fs, i), sb.IBlock(i), sb.BBlock(IndexPtr(fs, i)));
  }

  lemma Three(s: set<nat>, x: nat, y: nat, z: nat)
    ensures |s + {x, y, z}| <= |s| + 3
  {
    assert s + {x, y, z} == ((s + {x}) + {y}) + {z};
  }

  /** One transaction of filewrite: writei of one chunk, between begin_op and end_op. */
  method WriteChunk(fs: FileSystem, f: File, data: seq<Byte>) returns (r: Option<int>)
    requires fs.Valid() && f.ip < |fs.inodes| && fs.inodes[f.ip].kind != 0 && f.off < U32 && 0 < |data| <= MAXCHUNK
    modifies fs, f`off
    ensures r.Some? ==> fs.Valid() && r.value == if Accepts(old(fs.inodes[f.ip].size), old(f.off), |data|) then |data| else -1
    ensures r.None? ==> Full(fs.sb, fs.block)
    ensures !Accepts(old(fs.inodes[f.ip].size), old(f.off), |data|) ==>
              r == Some(-1) && fs.State() == old(fs.State()) && f.off == old(f.off) && fs.logged == {}
    ensures r.Some? && Accepts(old(fs.inodes[f.ip].size), old(f.off), |data|) ==>
              && Spliced(old(fs.State()), fs.State(), f.ip, old(f.off), data) && f.off == old(f.off) + |data|
              && LoggedOnly(fs.sb, {}, fs.logged, Reach(fs.State(), f.ip, old(f.off), |data|) + {fs.sb.IBlock(f.ip)})
              && Covered(old(fs.State()), fs.State(), fs.logged, f.ip) && fs.sb.IBlock(f.ip) in fs.logged
    ensures r.Some? ==> |fs.logged| <= MAXOPBLOCKS
  {
    fs.logged := {};
    var off := f.off;
    r := WriteI(fs, f.ip, off, data);
    if r.Some? && r.value > 0 { f.off := f.off + r.value; }
    if r.Some? && r.value > 0 { ChunkLogs(fs.sb, fs.logged, old(fs.State()), fs.State(), f.ip, off, |data|); }
  }

  /** The first i bytes of src have been written, as one writei would write them. */
  ghost predicate FileProgress(fs0: Fs, fs: Fs, ip: nat, off: nat, src: seq<Byte>, i: nat) {
    && ip < |fs0.inodes| && ip < |fs.inodes| && i <= |src| && fs.inodes[ip].kind == fs0.inodes[ip].kind
    && (i == 0 ==> fs == fs0)
    && (i > 0 ==> Accepts(fs0.inodes[ip].size, off, i) && Spliced(fs0, fs, ip, off, src[..i]))
  }

  /** Chunks add up. */
  lemma NextChunk(fs0: Fs, fs1: Fs, fs: Fs, ip: nat, off: nat, at: nat, src: seq<Byte>, i: nat, m: nat, data: seq<Byte>)
    requires FileProgress(fs0, fs1, ip, off, src, i) && InodesOk(fs0) && at == off + i
    requires 0 < m && i + m <= |src| && data == src[i..i + m]
    requires Accepts(fs1.inodes[ip].size, at, m) && Spliced(fs1, fs, ip, at, data)
    ensures FileProgress(fs0, fs, ip, off, src, i + m)
  {
    if i == 0 {
      SplicedNothing(fs0, ip, off);
      assert src[..0] == [];
    }
    SplicedTwice(fs0, fs1, fs, ip, off, src[..i], data);
    assert src[..i] + data == src[..i + m];
  }

  /** A chunk is refused only where the whole write would be. */
  lemma ChunkRefused(fs0: Fs, fs: Fs, ip: nat, off: nat, src: seq<Byte>, i: nat, m: nat, n: nat)
    requires FileProgress(fs0, fs, ip, off, src, i) && i + m <= n
    ensures !Accepts(fs.inodes[ip].size, off + i, m) ==> !Accepts(fs0.inodes[ip].size, off, n)
  {
  }

  /** One round of filewrite's loop. */
  method WriteNext(fs: FileSystem, f: File, src: seq<Byte>, i: nat, n1: nat, ghost fs0: Fs, ghost off: nat,
                   ghost n: nat)
    returns (w: Option<int>, next: nat)
    requires fs.Valid() && FileProgress(fs0, fs.State(), f.ip, off, src, i) && InodesOk(fs0)
             && fs0.inodes[f.ip].kind != 0
    requires f.off == off + i < U32 && 0 < n1 <= MAXCHUNK && i + n1 <= n <= |src|
    modifies fs, f`off
    ensures w.Some? ==> && fs.Valid() && (w.value == n1 || w.value == -1) && |fs.logged| <= MAXOPBLOCKS
                        && next == (if w.value == n1 then i + n1 else i) && f.off == off + next < U32
                        && FileProgress(fs0, fs.State(), f.ip, off, src, next)
                        && (w.value == -1 ==> !Accepts(fs0.inodes[f.ip].size, off, n))
    ensures w.None? ==> Full(fs.sb, fs.block)
  {
    var at, data := f.off, src[i..i + n1];
    ghost var fs1 := fs.State();
    w := WriteChunk(fs, f, data);
    ChunkRefused(fs0, fs1, f.ip, off, src, i, n1, n);
    next := if w == Some(n1) then i + n1 else i;
    if w == Some(n1) { NextChunk(fs0, fs1, fs.State(), f.ip, off, at, src, i, n1, data); }
  }

  ghost predicate AllSmall(ops: seq<set<nat>>) {
    forall t | t in ops :: |t| <= MAXOPBLOCKS
  }

  /** filewrite of the first n bytes of src to a file on disk. It returns n exactly where one writei of the n
      bytes would be accepted (or there is nothing to write), and then the file is as that one writei leaves it;
      where it returns -1, the chunks before the one that was refused have been written. Every transaction logs
      at most MAXOPBLOCKS blocks and writes at most MAXCHUNK bytes, and there are no more of them than that takes.
      None stands for balloc's panic. */
  method FileWrite(fs: FileSystem, f: File, src: seq<Byte>, n: int)
    returns (r: Option<int>, ghost done: nat, ghost ops: seq<set<nat>>)
    requires fs.Valid() && f.ip < |fs.inodes| && fs.inodes[f.ip].kind != 0 && f.off < U32 && n <= |src|
    modifies fs, f`off
    ensures r.Some? ==> fs.Valid() && f.off == old(f.off) + done && (done <= n || done == 0)
    ensures r.Some? ==> FileProgress(old(fs.State()), fs.State(), f.ip, old(f.off), src, done)
    ensures r.Some? ==> r.value == if f.writable && done == n then n else -1
    ensures r.Some? && f.writable && n > 0 ==> (r.value == n <==> Accepts(old(fs.inodes[f.ip].size), old(f.off), n))
    ensures r.None? ==> Full(fs.sb, fs.block)
    ensures AllSmall(ops) && (r.Some? ==> done <= MAXCHUNK * |ops|)
    ensures r == Some(n) && n > 0 ==> MAXCHUNK * (|ops| - 1) < n <= MAXCHUNK * |ops|
  {
    done, ops := 0, [];
    if !f.writable { return Some(-1), 0, []; }
    var i := 0;
    while i < n
      invariant (i <= n || i == 0) && done == i && fs.Valid() && f.off == old(f.off) + i && f.off < U32
      invariant FileProgress(old(fs.State()), fs.State(), f.ip, old(f.off), src, i)
      invariant AllSmall(ops) && (i < n ==> i == MAXCHUNK * |ops|)
      invariant i <= MAXCHUNK * |ops| && (i > 0 ==> MAXCHUNK * (|ops| - 1) < i)
    {
      var n1 := if n - i > MAXCHUNK then MAXCHUNK else n - i;
      var w, next := WriteNext(fs, f, src, i, n1, old(fs.State()), old(f.off), n);
      if w.None? { return None, done, ops; }
      ops := ops + [fs.logged];
      if w.value != n1 { break; }
      i, done := next, next;
    }
    return Some(if i == n then n else -1), done, ops;
  }
}
