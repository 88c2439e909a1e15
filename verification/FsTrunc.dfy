/** bfree, itrunc and ialloc (kernel/fs.c). */
module FsTrunc {
  import opened Options
  import opened FsLayout
  import opened FsModel
  import opened FsSteps
  import opened FsWrites
  import opened InodeLayer

  /** The blocks of file i. */
  ghost function OwnedBy(own: map<nat, Owner>, i: nat): (r: set<nat>) {
    set b | b in own && own[b].i == i
  }

  /** Those holding its blocks below n. */
  ghost function DataUpTo(own: map<nat, Owner>, i: nat, n: nat): (r: set<nat>) {
    set b | b in own && own[b].DataOf? && own[b].i == i && own[b].bn < n
  }

  /** From block0 to block the bits of gone were cleared, and nothing else happened. */
  ghost predicate Freed(sb: Super, block0: map<nat, Block>, block: map<nat, Block>, gone: set<nat>) {
    && block.Keys == block0.Keys
    && (forall x: nat {:trigger At(block, x)} | x >= sb.datastart :: At(block, x) == At(block0, x))
    && (forall x: nat {:trigger Marked(sb, block, x)} | x < sb.size :: Marked(sb, block, x) <==> Marked(sb, block0, x) && x !in gone)
  }

  lemma FreeOne(sb: Super, block0: map<nat, Block>, block: map<nat, Block>, gone: set<nat>, b: nat)
    requires sb.Ok() && BlocksOk(sb, block0) && Freed(sb, block0, block, gone) && b < sb.size
    ensures Freed(sb, block0, UnmarkBit(sb, block, b), gone + {b})
  {
    BitmapBelow(sb, b);
    var block' := UnmarkBit(sb, block, b);
    assert sb.BBlock(b) in block0;
    forall x: nat | x >= sb.datastart ensures At(block', x) == At(block0, x) { assert At(block, x) == At(block0, x); }
    forall x: nat | x < sb.size ensures Marked(sb, block', x) <==> Marked(sb, block0, x) && x !in gone + {b} {
      MarkOne(sb, block, b, x);
    }
  }

  /** The next block of file i: nothing, or a marked block not freed yet. */
  lemma NextData(sb: Super, fs: Fs, own: map<nat, Owner>, i: nat, n: nat)
    requires FsOk(sb, fs, own) && i < |fs.inodes| && n < MAXFILE
    ensures Ptr(fs, i, n) == 0 ==> DataUpTo(own, i, n + 1) == DataUpTo(own, i, n)
    ensures Ptr(fs, i, n) != 0 ==> && DataUpTo(own, i, n + 1) == DataUpTo(own, i, n) + {Ptr(fs, i, n)}
                                   && Ptr(fs, i, n) !in DataUpTo(own, i, n) && Ptr(fs, i, n) < sb.size
                                   && Marked(sb, fs.block, Ptr(fs, i, n))
  {
    assert PtrOk(fs, own, i, n);
    forall b | b in own && own[b] == DataOf(i, n) ensures b == Ptr(fs, i, n) != 0 { assert OwnOk(sb, fs, own, b); }
    if Ptr(fs, i, n) != 0 {
      assert OwnOk(sb, fs, own, Ptr(fs, i, n));
      assert BitOk(sb, fs.block, own, Ptr(fs, i, n));
    }
  }

  /** All of them, and the indirect block: marked and not among the data blocks. */
  lemma LastBlock(sb: Super, fs: Fs, own: map<nat, Owner>, i: nat)
    requires FsOk(sb, fs, own) && i < |fs.inodes|
    ensures IndexPtr(fs, i) == 0 ==> OwnedBy(own, i) == DataUpTo(own, i, NDIRECT)
    ensures IndexPtr(fs, i) != 0 ==> && OwnedBy(own, i) == DataUpTo(own, i, MAXFILE) + {IndexPtr(fs, i)}
                                     && IndexPtr(fs, i) !in DataUpTo(own, i, MAXFILE)
                                     && sb.datastart <= IndexPtr(fs, i) < sb.size
                                     && Marked(sb, fs.block, IndexPtr(fs, i))
  {
    assert RootOk(fs, own, i);
    forall b | b in own && own[b].i == i
      ensures own[b] == IndexOf(i) ==> b == IndexPtr(fs, i) != 0
      ensures own[b].DataOf? ==> own[b].bn < MAXFILE && (IndexPtr(fs, i) == 0 ==> own[b].bn < NDIRECT)
    {
      assert OwnOk(sb, fs, own, b);
    }
    if IndexPtr(fs, i) != 0 {
      assert OwnOk(sb, fs, own, IndexPtr(fs, i));
      assert BitOk(sb, fs.block, own, IndexPtr(fs, i));
    }
  }

  /** File i without blocks or bytes. */
  function Emptied(fs: Fs, block: map<nat, Block>, i: nat): (fs': Fs)
    requires i < |fs.inodes|
  {
    Fs(block, fs.inodes[i := Inode(fs.inodes[i].kind, 0, NoAddrs())])
  }

  lemma EmptiedPtr(sb: Super, fs: Fs, block: map<nat, Block>, own: map<nat, Owner>, i: nat, gone: set<nat>, j: nat,
                   bn: nat)
    requires FsOk(sb, fs, own) && Freed(sb, fs.block, block, gone) && i < |fs.inodes| && j < |fs.inodes| && bn < MAXFILE
    ensures Ptr(Emptied(fs, block, i), j, bn) == if j == i then 0 else Ptr(fs, j, bn)
    ensures IndexPtr(Emptied(fs, block, i), j) == if j == i then 0 else IndexPtr(fs, j)
  {
    assert RootOk(fs, own, j);
    if IndexPtr(fs, j) != 0 {
      assert OwnOk(sb, fs, own, IndexPtr(fs, j));
      assert At(block, IndexPtr(fs, j)) == At(fs.block, IndexPtr(fs, j));
    }
  }

  /** Once every block of file i is free and its addresses are gone, the file system is consistent again. */
  lemma EmptiedOk(sb: Super, fs: Fs, block: map<nat, Block>, own: map<nat, Owner>, i: nat)
    requires FsOk(sb, fs, own) && i < |fs.inodes| && Freed(sb, fs.block, block, OwnedBy(own, i))
    ensures FsOk(sb, Emptied(fs, block, i), own - OwnedBy(own, i))
  {
    var fs', own' := Emptied(fs, block, i), own - OwnedBy(own, i);
    forall j: nat, bn: nat | j < |fs'.inodes| && bn < MAXFILE ensures PtrOk(fs', own', j, bn) && NoHole(fs', j, bn) {
      EmptiedPtr(sb, fs, block, own, i, OwnedBy(own, i), j, bn);
      assert PtrOk(fs, own, j, bn) && NoHole(fs, j, bn);
    }
    forall j: nat | j < |fs'.inodes| ensures RootOk(fs', own', j) {
      EmptiedPtr(sb, fs, block, own, i, OwnedBy(own, i), j, 0);
      assert RootOk(fs, own, j);
    }
    forall b | b in own' ensures OwnOk(sb, fs', own', b) {
      assert OwnOk(sb, fs, own, b);
      if own[b].DataOf? {
        EmptiedPtr(sb, fs, block, own, i, OwnedBy(own, i), own[b].i, own[b].bn);
      } else {
        EmptiedPtr(sb, fs, block, own, i, OwnedBy(own, i), own[b].i, 0);
      }
    }
    forall x: nat | x < sb.size ensures BitOk(sb, block, own', x) {
      assert BitOk(sb, fs.block, own, x);
      if x in OwnedBy(own, i) { assert OwnOk(sb, fs, own, x); }
    }
    forall j | 0 <= j < |fs'.inodes| ensures InodeOk(fs'.inodes[j]) { assert InodeOk(fs.inodes[j]); }
  }

  /** And no other file has changed. */
  lemma EmptiedContent(sb: Super, fs: Fs, block: map<nat, Block>, own: map<nat, Owner>, i: nat, j: nat)
    requires FsOk(sb, fs, own) && i < |fs.inodes| && Freed(sb, fs.block, block, OwnedBy(own, i)) && j < |fs.inodes|
             && j != i
    ensures fs.inodes[j].size <= MAXFILE * BSIZE && Content(Emptied(fs, block, i), j) == Content(fs, j)
  {
    assert InodeOk(fs.inodes[j]);
    var fs' := Emptied(fs, block, i);
    forall k: nat | k < fs.inodes[j].size ensures ByteAt(fs', j, k) == ByteAt(fs, j, k) {
      EmptiedPtr(sb, fs, block, own, i, OwnedBy(own, i), j, k / BSIZE);
      assert PtrOk(fs, own, j, k / BSIZE);
      var p := Ptr(fs, j, k / BSIZE);
      if p != 0 {
        assert OwnOk(sb, fs, own, p);
        assert At(block, p) == At(fs.block, p);
      }
    }
  }

  /** File i is empty and every other file is as it was. */
  ghost predicate OthersKept(fs: Fs, fs': Fs, i: nat) {
    && |fs'.inodes| == |fs.inodes| && InodesOk(fs) && InodesOk(fs')
    && (forall j | 0 <= j < |fs.inodes| :: InodeOk(fs.inodes[j]) && InodeOk(fs'.inodes[j]))
    && (forall j: nat {:trigger Content(fs', j)} | j < |fs.inodes| && j != i :: Content(fs', j) == Content(fs, j))
  }

  lemma EmptiedAll(sb: Super, fs: Fs, block: map<nat, Block>, own: map<nat, Owner>, i: nat)
    requires FsOk(sb, fs, own) && i < |fs.inodes| && Freed(sb, fs.block, block, OwnedBy(own, i))
    ensures FsOk(sb, Emptied(fs, block, i), own - OwnedBy(own, i)) && OthersKept(fs, Emptied(fs, block, i), i)
  {
    EmptiedOk(sb, fs, block, own, i);
    forall j: nat | j < |fs.inodes| && j != i ensures Content(Emptied(fs, block, i), j) == Content(fs, j) {
      EmptiedContent(sb, fs, block, own, i, j);
    }
  }

  lemma NoAddr(index: nat)
    ensures NoAddrs()[NDIRECT := index][NDIRECT := 0] == NoAddrs() && NoAddrs()[NDIRECT := 0] == NoAddrs()
  {
  }

  /** From block0 to block only blocks of logged have changed, and of them those not in logged0 are bitmap blocks. */
  ghost predicate BitsLogged(sb: Super, block0: map<nat, Block>, block: map<nat, Block>, logged0: set<nat>,
                             logged: set<nat>) {
    && logged0 <= logged && (forall n: nat | n !in logged :: At(block, n) == At(block0, n))
    && forall x | x in logged && x !in logged0 :: InBitmap(sb, x)
  }

  // ---------------------------------------------------------------- the operations

  /** bfree. Block b alone is no longer in use, and only the bitmap block that says so has changed and is
      logged. It panics, with nothing changed, exactly when b was not in use. */
  method Bfree(fs: FileSystem, b: nat) returns (ok: bool)
    modifies fs`block, fs`logged
    ensures ok <==> Marked(fs.sb, old(fs.block), b)
    ensures !ok ==> fs.block == old(fs.block) && fs.logged == old(fs.logged)
    ensures ok ==> forall x: nat :: Marked(fs.sb, fs.block, x) <==> x != b && Marked(fs.sb, old(fs.block), x)
    ensures ok ==> fs.block == UnmarkBit(fs.sb, old(fs.block), b) && fs.logged == old(fs.logged) + {fs.sb.BBlock(b)}
    ensures forall n | n != fs.sb.BBlock(b) :: At(fs.block, n) == At(old(fs.block), n)
  {
    ok := Marked(fs.sb, fs.block, b);
    if !ok { return; }
    forall x: nat ensures Marked(fs.sb, UnmarkBit(fs.sb, fs.block, b), x) <==> x != b && Marked(fs.sb, fs.block, x) {
      MarkOne(fs.sb, fs.block, b, x);
    }
    fs.block := UnmarkBit(fs.sb, fs.block, b);
    fs.logged := fs.logged + {fs.sb.BBlock(b)};
  }

  /** bfree of block n of file i in itrunc, if it has one. */
  method FreeData(fs: FileSystem, i: nat, n: nat, p: nat, ghost fs0: Fs, ghost logged0: set<nat>)
    requires FsOk(fs.sb, fs0, fs.own) && i < |fs0.inodes| && n < MAXFILE && p == Ptr(fs0, i, n)
    requires Freed(fs.sb, fs0.block, fs.block, DataUpTo(fs.own, i, n))
    requires BitsLogged(fs.sb, fs0.block, fs.block, logged0, fs.logged)
    modifies fs`block, fs`logged
    ensures Freed(fs.sb, fs0.block, fs.block, DataUpTo(fs.own, i, n + 1))
    ensures BitsLogged(fs.sb, fs0.block, fs.block, logged0, fs.logged)
  {
    NextData(fs.sb, fs0, fs.own, i, n);
    if p != 0 {
      BitmapRange(fs.sb, p);
      FreeOne(fs.sb, fs0.block, fs.block, DataUpTo(fs.own, i, n), p);
      var ok := Bfree(fs, p);
      assert ok;
    }
  }

  /** itrunc's loop over the direct blocks. */
  method FreeDirect(fs: FileSystem, i: nat)
    requires fs.Valid() && i < |fs.inodes|
    modifies fs`block, fs`logged, fs`inodes
    ensures Freed(fs.sb, old(fs.block), fs.block, DataUpTo(fs.own, i, NDIRECT))
    ensures BitsLogged(fs.sb, old(fs.block), fs.block, old(fs.logged), fs.logged)
    ensures |fs.inodes| == |old(fs.inodes)| && forall j | 0 <= j < |fs.inodes| && j != i :: fs.inodes[j] == old(fs.inodes[j])
    ensures fs.inodes[i].kind == old(fs.inodes[i].kind)
            && fs.inodes[i].addrs == NoAddrs()[NDIRECT := old(fs.inodes[i].addrs)[NDIRECT]]
  {
    ghost var fs0 := fs.State();
    assert DataUpTo(fs.own, i, 0) == {};
    for n := 0 to NDIRECT
      invariant Freed(fs.sb, fs0.block, fs.block, DataUpTo(fs.own, i, n))
      invariant BitsLogged(fs.sb, fs0.block, fs.block, old(fs.logged), fs.logged)
      invariant |fs.inodes| == |fs0.inodes| && fs.inodes[i].kind == fs0.inodes[i].kind
      invariant forall j | 0 <= j < |fs.inodes| && j != i :: fs.inodes[j] == fs0.inodes[j]
      invariant forall k | 0 <= k <= NDIRECT :: fs.inodes[i].addrs[k] == if k < n then 0 else fs0.inodes[i].addrs[k]
    {
      FreeData(fs, i, n, fs.inodes[i].addrs[n], fs0, old(fs.logged));
      if fs.inodes[i].addrs[n] != 0 {
        fs.inodes := fs.inodes[i := SetAddr(fs.inodes[i], n, 0)];
      }
    }
  }

  /** itrunc's loop over the entries of the indirect block. */
  method FreeEntries(fs: FileSystem, i: nat, index: nat, ghost fs0: Fs, ghost logged0: set<nat>)
    requires BitsLogged(fs.sb, fs0.block, fs.block, logged0, fs.logged)
    requires FsOk(fs.sb, fs0, fs.own) && i < |fs0.inodes| && index == IndexPtr(fs0, i) != 0 && index >= fs.sb.datastart
    requires Freed(fs.sb, fs0.block, fs.block, DataUpTo(fs.own, i, NDIRECT))
    modifies fs`block, fs`logged
    ensures Freed(fs.sb, fs0.block, fs.block, DataUpTo(fs.own, i, MAXFILE))
    ensures BitsLogged(fs.sb, fs0.block, fs.block, logged0, fs.logged)
  {
    var bp := At(fs.block, index);
    for j := 0 to NINDIRECT
      invariant Freed(fs.sb, fs0.block, fs.block, DataUpTo(fs.own, i, NDIRECT + j))
      invariant BitsLogged(fs.sb, fs0.block, fs.block, logged0, fs.logged)
    {
      FreeData(fs, i, NDIRECT + j, Word(bp, j), fs0, logged0);
    }
  }

  /** itrunc: the file is empty, exactly its blocks are free again, and every other file is as it was. bfree's
      panic is not reached. All that has changed on disk is logged: bitmap blocks and the inode's block. */
  method ITrunc(fs: FileSystem, i: nat)
    requires fs.Valid() && i < |fs.inodes|
    modifies fs
    ensures fs.Valid() && fs.inodes == old(fs.inodes)[i := Inode(old(fs.inodes[i].kind), 0, NoAddrs())]
    ensures Freed(fs.sb, old(fs.block), fs.block, OwnedBy(old(fs.own), i))
            && fs.own == old(fs.own) - OwnedBy(old(fs.own), i)
    ensures OthersKept(old(fs.State()), fs.State(), i)
    ensures fs.sb.IBlock(i) in fs.logged && Covered(old(fs.State()), fs.State(), fs.logged, i)
            && LoggedOnly(fs.sb, old(fs.logged), fs.logged, {fs.sb.IBlock(i)})
  {
    ghost var fs0 := fs.State();
    LastBlock(fs.sb, fs0, fs.own, i);
    FreeDirect(fs, i);
    var index := fs.inodes[i].addrs[NDIRECT];
    if index != 0 {
      FreeEntries(fs, i, index, fs0, old(fs.logged));
      BitmapRange(fs.sb, index);
      FreeOne(fs.sb, fs0.block, fs.block, DataUpTo(fs.own, i, MAXFILE), index);
      var ok := Bfree(fs, index);
      assert ok;
      fs.inodes := fs.inodes[i := SetAddr(fs.inodes[i], NDIRECT, 0)];
    }
    fs.inodes := fs.inodes[i := fs.inodes[i].(size := 0)];
    fs.logged := fs.logged + {fs.sb.IBlock(i)};
    assert fs.inodes[i].addrs == NoAddrs() by { NoAddr(index); }
    assert fs.inodes == fs0.inodes[i := Inode(fs0.inodes[i].kind, 0, NoAddrs())];
    EmptiedAll(fs.sb, fs0, fs.block, fs.own, i);
    fs.own := fs.own - OwnedBy(fs.own, i);
  }

  lemma KindOk(sb: Super, fs: Fs, own: map<nat, Owner>, i: nat, kind: nat)
    requires FsOk(sb, fs, own) && i < |fs.inodes| && fs.inodes[i].kind == 0
    ensures fs.inodes[i] == Inode(0, 0, NoAddrs())
    ensures FsOk(sb, fs.(inodes := fs.inodes[i := Inode(kind, 0, NoAddrs())]), own)
  {
    assert InodeOk(fs.inodes[i]);
    var fs' := fs.(inodes := fs.inodes[i := Inode(kind, 0, NoAddrs())]);
    forall j: nat, bn: nat | j < |fs'.inodes| && bn < MAXFILE ensures PtrOk(fs', own, j, bn) && NoHole(fs', j, bn) {
      assert PtrOk(fs, own, j, bn) && NoHole(fs, j, bn) && Ptr(fs', j, bn) == Ptr(fs, j, bn);
    }
    forall j: nat | j < |fs'.inodes| ensures RootOk(fs', own, j) { assert RootOk(fs, own, j); }
    forall b | b in own ensures OwnOk(sb, fs', own, b) {
      assert OwnOk(sb, fs, own, b);
      if own[b].DataOf? { assert Ptr(fs', own[b].i, own[b].bn) == Ptr(fs, own[b].i, own[b].bn); }
    }
    forall x: nat | x < sb.size ensures BitOk(sb, fs'.block, own, x) { assert BitOk(sb, fs.block, own, x); }
    forall j | 0 <= j < |fs'.inodes| ensures InodeOk(fs'.inodes[j]) { assert InodeOk(fs.inodes[j]); }
  }

  /** ialloc: the lowest free inode from 1 up, now an empty file of the given type. None stands for the panic. */
  method IAlloc(fs: FileSystem, kind: nat) returns (r: Option<nat>)
    requires fs.Valid() && kind != 0
    modifies fs`inodes, fs`logged
    ensures fs.Valid()
    ensures r.Some? ==> && 1 <= r.value < |old(fs.inodes)| && old(fs.inodes[r.value].kind) == 0
                        && fs.inodes == old(fs.inodes)[r.value := Inode(kind, 0, NoAddrs())]
    ensures r.None? ==> fs.inodes == old(fs.inodes) && fs.logged == old(fs.logged)
    ensures r.Some? ==> && fs.logged == old(fs.logged) + {fs.sb.IBlock(r.value)}
                        && Covered(old(fs.State()), fs.State(), fs.logged, r.value)
    ensures forall j: nat | 1 <= j < (if r.Some? then r.value else |old(fs.inodes)|) :: old(fs.inodes[j].kind) != 0
  {
    var inum := 1;
    while inum < |fs.inodes|
      invariant 1 <= inum && fs.Valid() && fs.inodes == old(fs.inodes) && fs.logged == old(fs.logged)
      invariant forall j: nat | 1 <= j < inum && j < |fs.inodes| :: fs.inodes[j].kind != 0
    {
      if fs.inodes[inum].kind == 0 {
        KindOk(fs.sb, fs.State(), fs.own, inum, kind);
        fs.inodes := fs.inodes[inum := Inode(kind, 0, NoAddrs())];
        fs.logged := fs.logged + {fs.sb.IBlock(inum)};
        return Some(inum);
      }
      inum := inum + 1;
    }
    return None;
  }
}
