/** What attaching a new block to a file does to a consistent file system (balloc and bmap of kernel/fs.c), as steps
    on values. */
module FsSteps {
  import opened FsLayout
  import opened FsModel

  // ---------------------------------------------------------------- attaching a block

  /** Every place holds what it held, but o holds b. */
  ghost predicate PtrsAttached(fs: Fs, fs': Fs, b: nat, o: Owner) {
    && |fs'.inodes| == |fs.inodes|
    && (forall i: nat, bn: nat {:trigger Ptr(fs', i, bn)} | i < |fs.inodes| && bn < MAXFILE ::
          Ptr(fs', i, bn) == if o == DataOf(i, bn) then b else Ptr(fs, i, bn))
    && (forall i: nat {:trigger IndexPtr(fs', i)} | i < |fs.inodes| ::
          IndexPtr(fs', i) == if o == IndexOf(i) then b else IndexPtr(fs, i))
    && (forall i: nat | i < |fs.inodes| :: fs'.inodes[i].size == fs.inodes[i].size && fs'.inodes[i].kind == fs.inodes[i].kind)
  }

  ghost predicate BitAttached(sb: Super, block: map<nat, Block>, block': map<nat, Block>, b: nat) {
    forall x: nat {:trigger Marked(sb, block', x)} | x < sb.size :: Marked(sb, block', x) <==> x == b || Marked(sb, block, x)
  }

  /** The contents of the blocks of files are untouched, and the new block is zeros. */
  ghost predicate DataAttached(block: map<nat, Block>, block': map<nat, Block>, own: map<nat, Owner>, b: nat) {
    && block'.Keys == block.Keys && At(block', b) == Zeros()
    && forall d | d in own && own[d].DataOf? :: At(block', d) == At(block, d)
  }

  /** From fs to fs' the free block b was allocated, cleared and attached at o. */
  ghost predicate Attached(sb: Super, fs: Fs, fs': Fs, own: map<nat, Owner>, b: nat, o: Owner) {
    && sb.datastart <= b < sb.size && !Marked(sb, fs.block, b)
    && PtrsAttached(fs, fs', b, o) && BitAttached(sb, fs.block, fs'.block, b)
    && DataAttached(fs.block, fs'.block, own, b)
  }

  /** o is an empty place of a file that exists. */
  ghost predicate Vacant(fs: Fs, o: Owner) {
    && o.i < |fs.inodes| && fs.inodes[o.i].kind != 0
    && match o case DataOf(i, bn) => bn < MAXFILE && Ptr(fs, i, bn) == 0 case IndexOf(i) => IndexPtr(fs, i) == 0
  }

  lemma AttachPtrsOk(sb: Super, fs: Fs, fs': Fs, own: map<nat, Owner>, b: nat, o: Owner)
    requires PtrsOk(fs, own) && b !in own && PtrsAttached(fs, fs', b, o)
    ensures PtrsOk(fs', own[b := o])
  {
    var own' := own[b := o];
    forall i: nat, bn: nat | i < |fs'.inodes| && bn < MAXFILE ensures PtrOk(fs', own', i, bn) {
      assert PtrOk(fs, own, i, bn);
    }
    forall i: nat | i < |fs'.inodes| ensures RootOk(fs', own', i) {
      assert RootOk(fs, own, i);
    }
  }

  lemma AttachOwnersOk(sb: Super, fs: Fs, fs': Fs, own: map<nat, Owner>, b: nat, o: Owner)
    requires OwnersOk(sb, fs, own) && Vacant(fs, o) && b !in own && sb.datastart <= b < sb.size && 0 < sb.datastart
    requires PtrsAttached(fs, fs', b, o)
    ensures OwnersOk(sb, fs', own[b := o])
  {
    var own' := own[b := o];
    forall d | d in own' ensures OwnOk(sb, fs', own', d) {
      if d in own && d != b { assert OwnOk(sb, fs, own, d); }
    }
  }

  lemma AttachBitsOk(sb: Super, block: map<nat, Block>, block': map<nat, Block>, own: map<nat, Owner>, b: nat, o: Owner)
    requires BitsOk(sb, block, own) && BitAttached(sb, block, block', b) && sb.datastart <= b
    ensures BitsOk(sb, block', own[b := o])
  {
    var own' := own[b := o];
    forall x: nat | x < sb.size ensures BitOk(sb, block', own', x) {
      assert BitOk(sb, block, own, x);
    }
  }

  lemma AttachNoHoles(fs: Fs, fs': Fs, b: nat, o: Owner)
    requires NoHoles(fs) && PtrsAttached(fs, fs', b, o) && b != 0
    ensures NoHoles(fs')
  {
    forall i: nat, bn: nat | i < |fs'.inodes| && bn < MAXFILE ensures NoHole(fs', i, bn) {
      assert NoHole(fs, i, bn);
    }
  }

  lemma AttachInodesOk(fs: Fs, fs': Fs, b: nat, o: Owner)
    requires InodesOk(fs) && PtrsAttached(fs, fs', b, o) && Vacant(fs, o)
    ensures InodesOk(fs')
  {
    forall i | 0 <= i < |fs'.inodes| ensures InodeOk(fs'.inodes[i]) {
      assert InodeOk(fs.inodes[i]);
      if fs.inodes[i].kind == 0 { SameAddrs(fs, fs', i, b, o); }
    }
  }

  lemma SameAddrs(fs: Fs, fs': Fs, i: nat, b: nat, o: Owner)
    requires i < |fs.inodes| && PtrsAttached(fs, fs', b, o) && o.i != i
    ensures fs'.inodes[i].addrs == fs.inodes[i].addrs
  {
    forall bn: nat | bn <= NDIRECT ensures fs'.inodes[i].addrs[bn] == fs.inodes[i].addrs[bn] {
      if bn < NDIRECT {
        assert Ptr(fs', i, bn) == Ptr(fs, i, bn);
      } else {
        assert IndexPtr(fs', i) == IndexPtr(fs, i);
      }
    }
  }

  /** Attaching a free block to a vacant place keeps the file system consistent. */
  lemma AttachOk(sb: Super, fs: Fs, fs': Fs, own: map<nat, Owner>, b: nat, o: Owner)
    requires FsOk(sb, fs, own) && Vacant(fs, o) && Attached(sb, fs, fs', own, b, o)
    ensures b !in own && FsOk(sb, fs', own[b := o])
  {
    assert BitOk(sb, fs.block, own, b);
    AttachPtrsOk(sb, fs, fs', own, b, o);
    AttachOwnersOk(sb, fs, fs', own, b, o);
    AttachBitsOk(sb, fs.block, fs'.block, own, b, o);
    AttachNoHoles(fs, fs', b, o);
    AttachInodesOk(fs, fs', b, o);
    assert BlocksOk(sb, fs'.block);
  }

  /** No file's size or bytes differ. */
  ghost predicate SameFiles(fs: Fs, fs': Fs) {
    && |fs'.inodes| == |fs.inodes|
    && (forall i: nat | i < |fs.inodes| :: fs'.inodes[i].size == fs.inodes[i].size && fs'.inodes[i].kind == fs.inodes[i].kind)
    && (forall i: nat, k: nat {:trigger ByteAt(fs', i, k)} | i < |fs.inodes| && k < MAXFILE * BSIZE ::
          ByteAt(fs', i, k) == ByteAt(fs, i, k))
  }

  /** And keeps every byte of every file. */
  lemma AttachSameFiles(sb: Super, fs: Fs, fs': Fs, own: map<nat, Owner>, b: nat, o: Owner)
    requires PtrsOk(fs, own) && Vacant(fs, o) && Attached(sb, fs, fs', own, b, o)
    ensures SameFiles(fs, fs')
  {
    forall i: nat, k: nat | i < |fs.inodes| && k < MAXFILE * BSIZE ensures ByteAt(fs', i, k) == ByteAt(fs, i, k) {
      assert PtrOk(fs, own, i, k / BSIZE);
      assert Ptr(fs', i, k / BSIZE) == if o == DataOf(i, k / BSIZE) then b else Ptr(fs, i, k / BSIZE);
    }
  }

  // ---------------------------------------------------------------- balloc's step

  /** The block map after balloc took block b: marked and cleared. */
  function Took(sb: Super, block: map<nat, Block>, b: nat): (block': map<nat, Block>) {
    MarkBit(sb, block, b)[b := Zeros()]
  }

  lemma TookBits(sb: Super, block: map<nat, Block>, b: nat, x: nat)
    requires sb.Ok() && sb.datastart <= b < sb.size && x < sb.size
    ensures Marked(sb, Took(sb, block, b), x) <==> x == b || Marked(sb, block, x)
  {
    MarkOne(sb, block, b, x);
    MarkedFrame(sb, MarkBit(sb, block, b), b, Zeros(), x);
  }

  lemma TookData(sb: Super, block: map<nat, Block>, b: nat, d: nat)
    requires sb.Ok() && sb.datastart <= b < sb.size && d >= sb.datastart && d != b
    ensures At(Took(sb, block, b), d) == At(block, d)
  {
    BitmapBelow(sb, b);
  }

  lemma TookKeys(sb: Super, block: map<nat, Block>, b: nat)
    requires sb.Ok() && b < sb.size && BlocksOk(sb, block)
    ensures Took(sb, block, b).Keys == block.Keys
  {
    BitmapBelow(sb, b);
  }

  // ---------------------------------------------------------------- bmap's three ways of attaching

  function SetAddr(d: Inode, n: nat, b: nat): (d': Inode)
    requires n <= NDIRECT
  {
    d.(addrs := d.addrs[n := b])
  }

  /** ip->addrs[n] = b, for a direct block or the indirect block. */
  function WithAddr(sb: Super, fs: Fs, i: nat, n: nat, b: nat): (fs': Fs)
    requires i < |fs.inodes| && n <= NDIRECT
  {
    Fs(Took(sb, fs.block, b), fs.inodes[i := SetAddr(fs.inodes[i], n, b)])
  }

  /** a[j] = b in the indirect block. */
  function WithEntry(sb: Super, fs: Fs, i: nat, j: nat, b: nat): (fs': Fs)
    requires i < |fs.inodes| && j < NINDIRECT && b < U32
  {
    var block := Took(sb, fs.block, b);
    fs.(block := block[IndexPtr(fs, i) := SetWord(At(block, IndexPtr(fs, i)), j, b)])
  }

  /** balloc's block b is new to the file system. */
  lemma NewBlock(sb: Super, fs: Fs, own: map<nat, Owner>, b: nat, i: nat, bn: nat)
    requires FsOk(sb, fs, own) && b < sb.size && !Marked(sb, fs.block, b) && i < |fs.inodes| && bn < MAXFILE
    ensures sb.datastart <= b && b !in own && Ptr(fs, i, bn) != b && IndexPtr(fs, i) != b
    ensures IndexPtr(fs, i) != 0 ==> sb.datastart <= IndexPtr(fs, i) < sb.size
  {
    assert BitOk(sb, fs.block, own, b) && PtrOk(fs, own, i, bn) && RootOk(fs, own, i);
    if IndexPtr(fs, i) != 0 { assert OwnOk(sb, fs, own, IndexPtr(fs, i)); }
  }

  lemma TookAttached(sb: Super, fs: Fs, own: map<nat, Owner>, b: nat)
    requires FsOk(sb, fs, own) && sb.datastart <= b < sb.size && b !in own
    ensures BitAttached(sb, fs.block, Took(sb, fs.block, b), b) && DataAttached(fs.block, Took(sb, fs.block, b), own, b)
  {
    forall x: nat | x < sb.size ensures Marked(sb, Took(sb, fs.block, b), x) <==> x == b || Marked(sb, fs.block, x) {
      TookBits(sb, fs.block, b, x);
    }
    forall d | d in own && own[d].DataOf? ensures At(Took(sb, fs.block, b), d) == At(fs.block, d) {
      assert OwnOk(sb, fs, own, d);
      TookData(sb, fs.block, b, d);
    }
    TookKeys(sb, fs.block, b);
  }

  lemma AddrPtr(sb: Super, fs: Fs, own: map<nat, Owner>, i: nat, n: nat, b: nat, o: Owner, j: nat, bn: nat)
    requires FsOk(sb, fs, own) && i < |fs.inodes| && n <= NDIRECT && b < sb.size && !Marked(sb, fs.block, b)
    requires o == (if n < NDIRECT then DataOf(i, n) else IndexOf(i)) && Vacant(fs, o) && j < |fs.inodes| && bn < MAXFILE
    ensures Ptr(WithAddr(sb, fs, i, n, b), j, bn) == if o == DataOf(j, bn) then b else Ptr(fs, j, bn)
    ensures IndexPtr(WithAddr(sb, fs, i, n, b), j) == if o == IndexOf(j) then b else IndexPtr(fs, j)
  {
    NewBlock(sb, fs, own, b, j, bn);
    if IndexPtr(fs, j) != 0 { TookData(sb, fs.block, b, IndexPtr(fs, j)); }
    if bn >= NDIRECT { ZeroWord(bn - NDIRECT); }
  }

  /** ip->addrs[n] = balloc(dev). */
  lemma AddrAttached(sb: Super, fs: Fs, own: map<nat, Owner>, i: nat, n: nat, b: nat, o: Owner)
    requires FsOk(sb, fs, own) && i < |fs.inodes| && n <= NDIRECT && b < sb.size && !Marked(sb, fs.block, b)
    requires o == (if n < NDIRECT then DataOf(i, n) else IndexOf(i)) && Vacant(fs, o)
    ensures Attached(sb, fs, WithAddr(sb, fs, i, n, b), own, b, o)
  {
    var fs' := WithAddr(sb, fs, i, n, b);
    NewBlock(sb, fs, own, b, i, 0);
    TookAttached(sb, fs, own, b);
    forall j: nat, bn: nat | j < |fs.inodes| && bn < MAXFILE
      ensures Ptr(fs', j, bn) == if o == DataOf(j, bn) then b else Ptr(fs, j, bn)
    {
      AddrPtr(sb, fs, own, i, n, b, o, j, bn);
    }
    forall j: nat | j < |fs.inodes| ensures IndexPtr(fs', j) == if o == IndexOf(j) then b else IndexPtr(fs, j) {
      AddrPtr(sb, fs, own, i, n, b, o, j, 0);
    }
  }

  lemma EntryPtr(sb: Super, fs: Fs, own: map<nat, Owner>, i: nat, n: nat, b: nat, j: nat, bn: nat)
    requires FsOk(sb, fs, own) && i < |fs.inodes| && n < NINDIRECT && b < sb.size && !Marked(sb, fs.block, b)
    requires IndexPtr(fs, i) != 0 && j < |fs.inodes| && bn < MAXFILE && b < U32
    ensures Ptr(WithEntry(sb, fs, i, n, b), j, bn) == if j == i && bn == NDIRECT + n then b else Ptr(fs, j, bn)
  {
    NewBlock(sb, fs, own, b, j, bn);
    NewBlock(sb, fs, own, b, i, bn);
    OwnersDistinct(sb, fs, own, i, 0, j, 0);
    if IndexPtr(fs, j) != 0 { TookData(sb, fs.block, b, IndexPtr(fs, j)); }
    if bn >= NDIRECT { WordSet(At(Took(sb, fs.block, b), IndexPtr(fs, i)), n, b, bn - NDIRECT); }
  }

  lemma EntryBlocks(sb: Super, fs: Fs, own: map<nat, Owner>, i: nat, n: nat, b: nat)
    requires FsOk(sb, fs, own) && i < |fs.inodes| && n < NINDIRECT && b < sb.size && !Marked(sb, fs.block, b) && b < U32
    requires IndexPtr(fs, i) != 0 && sb.datastart <= b && b !in own
    ensures BitAttached(sb, fs.block, WithEntry(sb, fs, i, n, b).block, b)
    ensures DataAttached(fs.block, WithEntry(sb, fs, i, n, b).block, own, b)
  {
    var fs' := WithEntry(sb, fs, i, n, b);
    NewBlock(sb, fs, own, b, i, 0);
    assert RootOk(fs, own, i);
    TookAttached(sb, fs, own, b);
    forall x: nat | x < sb.size ensures Marked(sb, fs'.block, x) <==> x == b || Marked(sb, fs.block, x) {
      MarkedFrame(sb, Took(sb, fs.block, b), IndexPtr(fs, i), fs'.block[IndexPtr(fs, i)], x);
      TookBits(sb, fs.block, b, x);
    }
  }

  /** a[n] = balloc(dev), in the indirect block. */
  lemma EntryAttached(sb: Super, fs: Fs, own: map<nat, Owner>, i: nat, n: nat, b: nat)
    requires FsOk(sb, fs, own) && i < |fs.inodes| && n < NINDIRECT && b < sb.size && !Marked(sb, fs.block, b) && b < U32
    requires IndexPtr(fs, i) != 0
    ensures Attached(sb, fs, WithEntry(sb, fs, i, n, b), own, b, DataOf(i, NDIRECT + n))
  {
    var fs' := WithEntry(sb, fs, i, n, b);
    NewBlock(sb, fs, own, b, i, 0);
    EntryBlocks(sb, fs, own, i, n, b);
    forall j: nat, bn: nat | j < |fs.inodes| && bn < MAXFILE
      ensures Ptr(fs', j, bn) == if DataOf(i, NDIRECT + n) == DataOf(j, bn) then b else Ptr(fs, j, bn)
    {
      EntryPtr(sb, fs, own, i, n, b, j, bn);
    }
  }
}
