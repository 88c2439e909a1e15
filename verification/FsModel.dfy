/** The inode layer as values: who owns each block, and what bytes each file holds (kernel/fs.c). */
module FsModel {
  import opened FsLayout

  /** The parts of the superblock the inode layer uses; data blocks run from datastart to size. */
  datatype Super = Super(size: nat, inodestart: nat, bmapstart: nat, datastart: nat) {
    predicate Ok() {
      && 0 < inodestart <= bmapstart && 0 < size < U32
      && bmapstart + (size - 1) / BPB < datastart <= size
    }

    function BBlock(b: nat): (n: nat) { bmapstart + b / BPB }

    function IBlock(i: nat): (n: nat) { inodestart + i / IPB }
  }

  type Addrs = s: seq<nat> | |s| == NDIRECT + 1 witness seq(NDIRECT + 1, _ => 0)

  function NoAddrs(): Addrs { seq(NDIRECT + 1, _ => 0) }

  /** An inode; kind 0 is free. */
  datatype Inode = Inode(kind: nat, size: nat, addrs: Addrs)

  datatype Fs = Fs(block: map<nat, Block>, inodes: seq<Inode>)

  function At(block: map<nat, Block>, b: nat): (d: Block) {
    if b in block then block[b] else Zeros()
  }

  function IndexPtr(fs: Fs, i: nat): (p: nat)
    requires i < |fs.inodes|
  {
    fs.inodes[i].addrs[NDIRECT]
  }

  /** The disk block of block bn of file i; 0 when it has none. */
  function Ptr(fs: Fs, i: nat, bn: nat): (p: nat)
    requires i < |fs.inodes| && bn < MAXFILE
  {
    if bn < NDIRECT then fs.inodes[i].addrs[bn]
    else if IndexPtr(fs, i) == 0 then 0
    else Word(At(fs.block, IndexPtr(fs, i)), bn - NDIRECT)
  }

  /** Byte k of file i; 0 where no block is allocated. */
  function ByteAt(fs: Fs, i: nat, k: nat): (b: Byte)
    requires i < |fs.inodes| && k < MAXFILE * BSIZE
  {
    if Ptr(fs, i, k / BSIZE) == 0 then 0 else At(fs.block, Ptr(fs, i, k / BSIZE))[k % BSIZE]
  }

  predicate Marked(sb: Super, block: map<nat, Block>, b: nat) {
    Bit(At(block, sb.BBlock(b)), b % BPB)
  }

  // ---------------------------------------------------------------- ownership

  /** Why a block is in use: block bn of a file, or a file's indirect block. */
  datatype Owner = DataOf(i: nat, bn: nat) | IndexOf(i: nat)

  predicate PtrOk(fs: Fs, own: map<nat, Owner>, i: nat, bn: nat)
    requires i < |fs.inodes| && bn < MAXFILE
  {
    Ptr(fs, i, bn) != 0 ==> Ptr(fs, i, bn) in own && own[Ptr(fs, i, bn)] == DataOf(i, bn)
  }

  predicate RootOk(fs: Fs, own: map<nat, Owner>, i: nat)
    requires i < |fs.inodes|
  {
    IndexPtr(fs, i) != 0 ==> IndexPtr(fs, i) in own && own[IndexPtr(fs, i)] == IndexOf(i)
  }

  predicate OwnOk(sb: Super, fs: Fs, own: map<nat, Owner>, b: nat)
    requires b in own
  {
    && sb.datastart <= b < sb.size
    && match own[b]
       case DataOf(i, bn) => i < |fs.inodes| && bn < MAXFILE && Ptr(fs, i, bn) == b
       case IndexOf(i) => i < |fs.inodes| && IndexPtr(fs, i) == b
  }

  predicate BitOk(sb: Super, block: map<nat, Block>, own: map<nat, Owner>, b: nat) {
    Marked(sb, block, b) <==> b < sb.datastart || b in own
  }

  /** Block bn of file i is there if any byte of it is below the file's size. */
  predicate NoHole(fs: Fs, i: nat, bn: nat)
    requires i < |fs.inodes| && bn < MAXFILE
  {
    bn * BSIZE < fs.inodes[i].size ==> Ptr(fs, i, bn) != 0
  }

  predicate InodeOk(d: Inode) {
    d.size <= MAXFILE * BSIZE && (d.kind == 0 ==> d.size == 0 && d.addrs == NoAddrs())
  }

  predicate PtrsOk(fs: Fs, own: map<nat, Owner>) {
    && (forall i: nat, bn: nat {:trigger PtrOk(fs, own, i, bn)} | i < |fs.inodes| && bn < MAXFILE :: PtrOk(fs, own, i, bn))
    && (forall i: nat {:trigger RootOk(fs, own, i)} | i < |fs.inodes| :: RootOk(fs, own, i))
  }

  predicate OwnersOk(sb: Super, fs: Fs, own: map<nat, Owner>) {
    forall b {:trigger OwnOk(sb, fs, own, b)} | b in own :: OwnOk(sb, fs, own, b)
  }

  predicate BitsOk(sb: Super, block: map<nat, Block>, own: map<nat, Owner>) {
    forall b: nat {:trigger BitOk(sb, block, own, b)} | b < sb.size :: BitOk(sb, block, own, b)
  }

  predicate NoHoles(fs: Fs) {
    forall i: nat, bn: nat {:trigger NoHole(fs, i, bn)} | i < |fs.inodes| && bn < MAXFILE :: NoHole(fs, i, bn)
  }

  predicate InodesOk(fs: Fs) {
    forall i | 0 <= i < |fs.inodes| :: InodeOk(fs.inodes[i])
  }

  predicate BlocksOk(sb: Super, block: map<nat, Block>) {
    forall b: nat | b < sb.size :: b in block
  }

  /** A consistent file system: own says for every block in use what it is used for, so no block is used
      twice; the bitmap marks exactly the metadata and the owned blocks; and files have no holes. */
  predicate FsOk(sb: Super, fs: Fs, own: map<nat, Owner>) {
    && sb.Ok() && BlocksOk(sb, fs.block) && InodesOk(fs) && PtrsOk(fs, own) && OwnersOk(sb, fs, own)
    && BitsOk(sb, fs.block, own) && NoHoles(fs)
  }

  /** Two places in the file system never share a block. */
  lemma OwnersDistinct(sb: Super, fs: Fs, own: map<nat, Owner>, i: nat, bn: nat, j: nat, bm: nat)
    requires FsOk(sb, fs, own) && i < |fs.inodes| && j < |fs.inodes| && bn < MAXFILE && bm < MAXFILE
    ensures Ptr(fs, i, bn) != 0 && Ptr(fs, i, bn) == Ptr(fs, j, bm) ==> i == j && bn == bm
    ensures Ptr(fs, i, bn) != 0 ==> Ptr(fs, i, bn) != IndexPtr(fs, j)
    ensures IndexPtr(fs, i) != 0 && IndexPtr(fs, i) == IndexPtr(fs, j) ==> i == j
  {
    assert PtrOk(fs, own, i, bn) && PtrOk(fs, own, j, bm) && RootOk(fs, own, i) && RootOk(fs, own, j);
  }

  // ---------------------------------------------------------------- the bitmap

  function MarkBit(sb: Super, block: map<nat, Block>, b: nat): (block': map<nat, Block>) {
    block[sb.BBlock(b) := SetBit(At(block, sb.BBlock(b)), b % BPB)]
  }

  function UnmarkBit(sb: Super, block: map<nat, Block>, b: nat): (block': map<nat, Block>) {
    block[sb.BBlock(b) := ClearBit(At(block, sb.BBlock(b)), b % BPB)]
  }

  lemma MarkOne(sb: Super, block: map<nat, Block>, b: nat, x: nat)
    ensures Marked(sb, MarkBit(sb, block, b), x) <==> x == b || Marked(sb, block, x)
    ensures Marked(sb, UnmarkBit(sb, block, b), x) <==> x != b && Marked(sb, block, x)
  {
    if b / BPB == x / BPB {
      BitSet(At(block, sb.BBlock(b)), b % BPB, x % BPB);
      assert b == b / BPB * BPB + b % BPB && x == x / BPB * BPB + x % BPB;
    }
  }

  /** The bitmap lies before the data blocks. */
  lemma BitmapBelow(sb: Super, b: nat)
    requires sb.Ok() && b < sb.size
    ensures sb.BBlock(b) < sb.datastart
  {
    assert b / BPB <= (sb.size - 1) / BPB;
  }

  lemma MarkedFrame(sb: Super, block: map<nat, Block>, p: nat, d: Block, x: nat)
    requires sb.Ok() && p >= sb.datastart && x < sb.size
    ensures Marked(sb, block[p := d], x) <==> Marked(sb, block, x)
  {
    BitmapBelow(sb, x);
  }
}
