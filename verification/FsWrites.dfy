/** Writing a block of a file and setting its size (writei of kernel/fs.c), as steps on values. */
module FsWrites {
  import opened FsLayout
  import opened FsModel
  import opened FsSteps

  // ---------------------------------------------------------------- data

  /** Block d with data at offset off. */
  function Patch(d: Block, off: nat, data: seq<Byte>): (d': Block)
    requires off + |data| <= BSIZE
  {
    d[..off] + data + d[off + |data|..]
  }

  /** memmove into the buffer of block p. */
  function WithData(fs: Fs, p: nat, off: nat, data: seq<Byte>): (fs': Fs)
    requires off + |data| <= BSIZE
  {
    fs.(block := fs.block[p := Patch(At(fs.block, p), off, data)])
  }

  /** A data block of a file is not an indirect block. */
  lemma DataPtrs(sb: Super, fs: Fs, own: map<nat, Owner>, i: nat, bn: nat, off: nat, data: seq<Byte>, j: nat, bm: nat)
    requires FsOk(sb, fs, own) && i < |fs.inodes| && bn < MAXFILE && Ptr(fs, i, bn) != 0 && off + |data| <= BSIZE
    requires j < |fs.inodes| && bm < MAXFILE
    ensures Ptr(WithData(fs, Ptr(fs, i, bn), off, data), j, bm) == Ptr(fs, j, bm)
  {
    OwnersDistinct(sb, fs, own, i, bn, j, bm);
  }

  lemma DataOk(sb: Super, fs: Fs, own: map<nat, Owner>, i: nat, bn: nat, off: nat, data: seq<Byte>)
    requires FsOk(sb, fs, own) && i < |fs.inodes| && bn < MAXFILE && Ptr(fs, i, bn) != 0 && off + |data| <= BSIZE
    ensures FsOk(sb, WithData(fs, Ptr(fs, i, bn), off, data), own)
  {
    var p := Ptr(fs, i, bn);
    var fs' := WithData(fs, p, off, data);
    assert PtrOk(fs, own, i, bn) && OwnOk(sb, fs, own, p);
    assert fs'.block.Keys == fs.block.Keys;
    forall j: nat, bm: nat | j < |fs.inodes| && bm < MAXFILE
      ensures PtrOk(fs', own, j, bm) && NoHole(fs', j, bm)
    {
      DataPtrs(sb, fs, own, i, bn, off, data, j, bm);
      assert PtrOk(fs, own, j, bm) && NoHole(fs, j, bm);
    }
    forall j: nat | j < |fs.inodes| ensures RootOk(fs', own, j) { assert RootOk(fs, own, j); }
    forall x: nat | x < sb.size ensures BitOk(sb, fs'.block, own, x) {
      assert BitOk(sb, fs.block, own, x);
      MarkedFrame(sb, fs.block, p, fs'.block[p], x);
    }
    forall b | b in own ensures OwnOk(sb, fs', own, b) {
      assert OwnOk(sb, fs, own, b);
      if own[b].DataOf? { DataPtrs(sb, fs, own, i, bn, off, data, own[b].i, own[b].bn); }
    }
  }

  /** The bytes of file i from off on are data; every other byte of every file is as it was. */
  ghost predicate Wrote(fs: Fs, fs': Fs, i: nat, off: nat, data: seq<Byte>) {
    && |fs'.inodes| == |fs.inodes| && i < |fs.inodes| && off + |data| <= MAXFILE * BSIZE
    && (forall j: nat | j < |fs.inodes| :: fs'.inodes[j].size == fs.inodes[j].size && fs'.inodes[j].kind == fs.inodes[j].kind)
    && (forall j: nat, k: nat {:trigger ByteAt(fs', j, k)} | j < |fs.inodes| && k < MAXFILE * BSIZE ::
          ByteAt(fs', j, k) == if j == i && off <= k < off + |data| then data[k - off] else ByteAt(fs, j, k))
  }

  lemma WroteNothing(fs: Fs, i: nat, off: nat)
    requires i < |fs.inodes| && off <= MAXFILE * BSIZE
    ensures Wrote(fs, fs, i, off, [])
  {
  }

  lemma DataBytes(sb: Super, fs: Fs, own: map<nat, Owner>, i: nat, at: nat, data: seq<Byte>, j: nat, k: nat)
    requires FsOk(sb, fs, own) && i < |fs.inodes| && at < MAXFILE * BSIZE && at % BSIZE + |data| <= BSIZE
    requires Ptr(fs, i, at / BSIZE) != 0 && j < |fs.inodes| && k < MAXFILE * BSIZE
    ensures ByteAt(WithData(fs, Ptr(fs, i, at / BSIZE), at % BSIZE, data), j, k) ==
            if j == i && at <= k < at + |data| then data[k - at] else ByteAt(fs, j, k)
  {
    DataPtrs(sb, fs, own, i, at / BSIZE, at % BSIZE, data, j, k / BSIZE);
    OwnersDistinct(sb, fs, own, i, at / BSIZE, j, k / BSIZE);
    InBlock(at, |data|, k);
  }

  /** k is among the len bytes from at, all of one block, exactly when it is in that block at such an offset. */
  lemma InBlock(at: nat, len: nat, k: nat)
    requires at % BSIZE + len <= BSIZE
    ensures at <= k < at + len <==> k / BSIZE == at / BSIZE && at % BSIZE <= k % BSIZE < at % BSIZE + len
    ensures k / BSIZE == at / BSIZE ==> k % BSIZE - at % BSIZE == k - at
  {
    assert at == at / BSIZE * BSIZE + at % BSIZE && k == k / BSIZE * BSIZE + k % BSIZE;
    if at <= k < at + len { assert k / BSIZE == at / BSIZE; }
  }

  /** Part of a block written, as a step of the file's bytes. */
  lemma DataWrote(sb: Super, fs: Fs, own: map<nat, Owner>, i: nat, at: nat, data: seq<Byte>)
    requires FsOk(sb, fs, own) && i < |fs.inodes| && at < MAXFILE * BSIZE && at % BSIZE + |data| <= BSIZE
    requires Ptr(fs, i, at / BSIZE) != 0
    ensures Wrote(fs, WithData(fs, Ptr(fs, i, at / BSIZE), at % BSIZE, data), i, at, data)
  {
    var fs' := WithData(fs, Ptr(fs, i, at / BSIZE), at % BSIZE, data);
    forall j: nat, k: nat | j < |fs.inodes| && k < MAXFILE * BSIZE
      ensures ByteAt(fs', j, k) == if j == i && at <= k < at + |data| then data[k - at] else ByteAt(fs, j, k)
    {
      DataBytes(sb, fs, own, i, at, data, j, k);
    }
  }

  lemma WroteMore(fs: Fs, fs1: Fs, fs2: Fs, fs3: Fs, i: nat, off: nat, a: seq<Byte>, b: seq<Byte>, at: nat)
    requires Wrote(fs, fs1, i, off, a) && SameFiles(fs1, fs2) && at == off + |a| && Wrote(fs2, fs3, i, at, b)
    ensures Wrote(fs, fs3, i, off, a + b)
  {
    forall j: nat, k: nat | j < |fs.inodes| && k < MAXFILE * BSIZE
      ensures ByteAt(fs3, j, k) == if j == i && off <= k < off + |a + b| then (a + b)[k - off] else ByteAt(fs, j, k)
    {
      assert ByteAt(fs2, j, k) == ByteAt(fs1, j, k);
    }
  }

  // ---------------------------------------------------------------- size

  function WithSize(fs: Fs, i: nat, size: nat): (fs': Fs)
    requires i < |fs.inodes|
  {
    fs.(inodes := fs.inodes[i := fs.inodes[i].(size := size)])
  }

  /** One past the last block that n bytes at off reach. */
  function Upto(off: nat, n: nat): (b: nat) {
    if n == 0 then off / BSIZE else (off + n - 1) / BSIZE + 1
  }

  /** Blocks a .. b of file i are there. */
  ghost predicate Mapped(fs: Fs, i: nat, a: nat, b: nat)
    requires i < |fs.inodes|
  {
    forall bn: nat {:trigger Ptr(fs, i, bn)} | a <= bn < b && bn < MAXFILE :: Ptr(fs, i, bn) != 0
  }

  lemma SizePtr(fs: Fs, i: nat, size: nat, j: nat, bn: nat)
    requires i < |fs.inodes| && j < |fs.inodes| && bn < MAXFILE
    ensures Ptr(WithSize(fs, i, size), j, bn) == Ptr(fs, j, bn) && IndexPtr(WithSize(fs, i, size), j) == IndexPtr(fs, j)
  {
  }

  lemma SizeOk(sb: Super, fs: Fs, own: map<nat, Owner>, i: nat, off: nat, n: nat, size: nat)
    requires FsOk(sb, fs, own) && i < |fs.inodes| && fs.inodes[i].kind != 0
    requires off <= fs.inodes[i].size && off + n <= MAXFILE * BSIZE && Mapped(fs, i, off / BSIZE, Upto(off, n))
    requires size == NewSize(fs.inodes[i].size, off, n)
    ensures FsOk(sb, WithSize(fs, i, size), own)
  {
    assert InodeOk(fs.inodes[i]);
    var fs' := WithSize(fs, i, size);
    forall j: nat, bm: nat | j < |fs.inodes| && bm < MAXFILE
      ensures PtrOk(fs', own, j, bm) && NoHole(fs', j, bm)
    {
      SizePtr(fs, i, size, j, bm);
      assert PtrOk(fs, own, j, bm) && NoHole(fs, j, bm);
      if j == i && fs.inodes[i].size <= bm * BSIZE < size { assert off / BSIZE <= bm < Upto(off, n); }
    }
    forall j: nat | j < |fs.inodes| ensures RootOk(fs', own, j) { assert RootOk(fs, own, j); }
    forall b | b in own ensures OwnOk(sb, fs', own, b) {
      assert OwnOk(sb, fs, own, b);
      if own[b].DataOf? { SizePtr(fs, i, size, own[b].i, own[b].bn); }
    }
    forall x: nat | x < sb.size ensures BitOk(sb, fs'.block, own, x) { assert BitOk(sb, fs.block, own, x); }
  }

  // ---------------------------------------------------------------- the bytes of a file

  function Content(fs: Fs, i: nat): (c: seq<Byte>)
    requires i < |fs.inodes| && fs.inodes[i].size <= MAXFILE * BSIZE
  {
    seq(fs.inodes[i].size, k requires 0 <= k < fs.inodes[i].size => ByteAt(fs, i, k))
  }

  /** c with data in place of what is at off, growing if need be. */
  function Splice(c: seq<Byte>, off: nat, data: seq<Byte>): (c': seq<Byte>)
    requires off <= |c|
    ensures |c'| == if off + |data| > |c| then off + |data| else |c|
  {
    c[..off] + data + if off + |data| < |c| then c[off + |data|..] else []
  }

  lemma SpliceTwice(c: seq<Byte>, off: nat, a: seq<Byte>, b: seq<Byte>)
    requires off <= |c|
    ensures off + |a| <= |Splice(c, off, a)|
    ensures Splice(Splice(c, off, a), off + |a|, b) == Splice(c, off, a + b)
  {
  }

  /** The size a write of n bytes at off leaves. */
  function NewSize(size: nat, off: nat, n: nat): (s: nat) { if off + n > size then off + n else size }

  /** Splicing file i and leaving every other file alone. */
  ghost predicate Spliced(fs: Fs, fs': Fs, i: nat, off: nat, data: seq<Byte>) {
    && |fs'.inodes| == |fs.inodes| && i < |fs.inodes| && InodesOk(fs) && InodesOk(fs') && off <= fs.inodes[i].size
    && (forall j | 0 <= j < |fs.inodes| :: InodeOk(fs.inodes[j]) && InodeOk(fs'.inodes[j]) && fs'.inodes[j].kind == fs.inodes[j].kind)
    && Content(fs', i) == Splice(Content(fs, i), off, data)
    && (forall j: nat {:trigger Content(fs', j)} | j < |fs.inodes| && j != i :: Content(fs', j) == Content(fs, j))
  }

  lemma WroteOther(fs: Fs, fs1: Fs, i: nat, off: nat, data: seq<Byte>, size: nat, j: nat)
    requires Wrote(fs, fs1, i, off, data) && j < |fs.inodes| && j != i && fs.inodes[j].size <= MAXFILE * BSIZE
    ensures WithSize(fs1, i, size).inodes[j].size == fs.inodes[j].size
    ensures Content(WithSize(fs1, i, size), j) == Content(fs, j)
  {
    var fs' := WithSize(fs1, i, size);
    forall k: nat | k < fs.inodes[j].size ensures ByteAt(fs', j, k) == ByteAt(fs, j, k) {
      SizePtr(fs1, i, size, j, k / BSIZE);
      assert ByteAt(fs1, j, k) == ByteAt(fs, j, k);
    }
  }

  lemma WroteFile(fs: Fs, fs1: Fs, i: nat, off: nat, data: seq<Byte>, size: nat)
    requires Wrote(fs, fs1, i, off, data) && off <= fs.inodes[i].size <= MAXFILE * BSIZE
    requires size == NewSize(fs.inodes[i].size, off, |data|)
    ensures Content(WithSize(fs1, i, size), i) == Splice(Content(fs, i), off, data)
  {
    var fs' := WithSize(fs1, i, size);
    var want := Splice(Content(fs, i), off, data);
    forall k: nat | k < size ensures ByteAt(fs', i, k) == want[k] {
      SizePtr(fs1, i, size, i, k / BSIZE);
      assert ByteAt(fs1, i, k) == if off <= k < off + |data| then data[k - off] else ByteAt(fs, i, k);
    }
  }

  /** A write, then the new size, splices the file and leaves every other file alone. */
  lemma WroteContent(fs: Fs, fs1: Fs, i: nat, off: nat, data: seq<Byte>, size: nat)
    requires Wrote(fs, fs1, i, off, data) && InodesOk(fs) && InodesOk(WithSize(fs1, i, size))
             && off <= fs.inodes[i].size
    requires size == NewSize(fs.inodes[i].size, off, |data|)
    ensures Spliced(fs, WithSize(fs1, i, size), i, off, data)
  {
    var fs' := WithSize(fs1, i, size);
    assert InodeOk(fs.inodes[i]);
    WroteFile(fs, fs1, i, off, data, size);
    forall j: nat | j < |fs.inodes| && j != i ensures InodeOk(fs.inodes[j]) && InodeOk(fs'.inodes[j]) && Content(fs', j) == Content(fs, j) {
      assert InodeOk(fs.inodes[j]) && InodeOk(fs'.inodes[j]);
      WroteOther(fs, fs1, i, off, data, size, j);
    }
  }

  lemma SplicedNothing(fs: Fs, i: nat, off: nat)
    requires InodesOk(fs) && i < |fs.inodes| && off <= fs.inodes[i].size
    ensures Spliced(fs, fs, i, off, [])
  {
    assert forall j | 0 <= j < |fs.inodes| :: InodeOk(fs.inodes[j]);
    assert Splice(Content(fs, i), off, []) == Content(fs, i);
  }

  lemma SplicedTwice(fs: Fs, fs1: Fs, fs2: Fs, i: nat, off: nat, a: seq<Byte>, b: seq<Byte>)
    requires Spliced(fs, fs1, i, off, a) && Spliced(fs1, fs2, i, off + |a|, b)
    ensures Spliced(fs, fs2, i, off, a + b)
  {
    SpliceTwice(Content(fs, i), off, a, b);
    forall j: nat | j < |fs.inodes| && j != i ensures Content(fs2, j) == Content(fs, j) {
      assert Content(fs1, j) == Content(fs, j);
    }
  }
}
