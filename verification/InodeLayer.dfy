/** Block allocation, bmap and readi (kernel/fs.c) over the block map that the buffer cache and the log
    provide; log_write is recorded in the set of blocks logged by the current operation. */
module InodeLayer {
  import opened Options
  import opened FsLayout
  import opened FsModel
  import opened FsSteps
  import opened FsWrites

  /** Blocks that have an address keep it. */
  ghost predicate PtrsKept(fs: Fs, fs': Fs) {
    && |fs'.inodes| == |fs.inodes|
    && (forall i: nat, bn: nat {:trigger Ptr(fs', i, bn)} | i < |fs.inodes| && bn < MAXFILE && Ptr(fs, i, bn) != 0 ::
          Ptr(fs', i, bn) == Ptr(fs, i, bn))
    && (forall i: nat {:trigger IndexPtr(fs', i)} | i < |fs.inodes| && IndexPtr(fs, i) != 0 :: IndexPtr(fs', i) == IndexPtr(fs, i))
  }

  lemma AttachKeeps(sb: Super, fs: Fs, fs': Fs, own: map<nat, Owner>, b: nat, o: Owner)
    requires Vacant(fs, o) && Attached(sb, fs, fs', own, b, o)
    ensures PtrsKept(fs, fs')
  {
  }

  lemma AttachAll(sb: Super, fs: Fs, fs': Fs, own: map<nat, Owner>, b: nat, o: Owner)
    requires FsOk(sb, fs, own) && Vacant(fs, o) && Attached(sb, fs, fs', own, b, o)
    ensures FsOk(sb, fs', own[b := o]) && SameFiles(fs, fs') && PtrsKept(fs, fs')
  {
    AttachOk(sb, fs, fs', own, b, o);
    AttachSameFiles(sb, fs, fs', own, b, o);
    AttachKeeps(sb, fs, fs', own, b, o);
  }

  lemma KeptTrans(fs: Fs, fs1: Fs, fs2: Fs)
    requires PtrsKept(fs, fs1) && PtrsKept(fs1, fs2)
    ensures PtrsKept(fs, fs2)
  {
    forall i: nat, bn: nat | i < |fs.inodes| && bn < MAXFILE && Ptr(fs, i, bn) != 0 ensures Ptr(fs2, i, bn) == Ptr(fs, i, bn) {
      assert Ptr(fs1, i, bn) == Ptr(fs, i, bn);
    }
    forall i: nat | i < |fs.inodes| && IndexPtr(fs, i) != 0 ensures IndexPtr(fs2, i) == IndexPtr(fs, i) {
      assert IndexPtr(fs1, i) == IndexPtr(fs, i);
    }
  }

  lemma SameTrans(fs: Fs, fs1: Fs, fs2: Fs)
    requires SameFiles(fs, fs1) && SameFiles(fs1, fs2)
    ensures SameFiles(fs, fs2)
  {
    forall i: nat, k: nat | i < |fs.inodes| && k < MAXFILE * BSIZE ensures ByteAt(fs2, i, k) == ByteAt(fs, i, k) {
      assert ByteAt(fs1, i, k) == ByteAt(fs, i, k);
    }
  }

  /** The bitmap has no free block: balloc panics. */
  predicate Full(sb: Super, block: map<nat, Block>) {
    forall x: nat | x < sb.size :: Marked(sb, block, x)
  }

  predicate InBitmap(sb: Super, x: nat) {
    sb.size > 0 && sb.bmapstart <= x <= sb.bmapstart + (sb.size - 1) / BPB
  }

  /** Only bitmap blocks and those of extra were logged since. */
  ghost predicate LoggedOnly(sb: Super, logged: set<nat>, logged': set<nat>, extra: set<nat>) {
    logged <= logged' && forall x | x in logged' :: x in logged || (x in extra && x != 0) || InBitmap(sb, x)
  }

  /** Block bn of file i is disk block b, which it was not given before. */
  ghost predicate NewAt(fs: Fs, fs': Fs, i: nat, bn: nat, b: nat) {
    i < |fs.inodes| == |fs'.inodes| && bn < MAXFILE && Ptr(fs, i, bn) == 0 && b == Ptr(fs', i, bn)
  }

  /** From fs to fs' file i was given disk block b, for one of its blocks from a up to c or as its indirect block. */
  ghost predicate Gained(fs: Fs, fs': Fs, i: nat, a: nat, c: nat, b: nat) {
    && i < |fs.inodes| == |fs'.inodes| && b != 0
    && ((exists bn: nat :: NewAt(fs, fs', i, bn, b) && a <= bn < c) || (IndexPtr(fs, i) == 0 && b == IndexPtr(fs', i)))
  }

  /** x is the bitmap block of such a block. */
  ghost predicate BitOf(sb: Super, fs: Fs, fs': Fs, i: nat, a: nat, c: nat, x: nat) {
    exists b: nat :: Gained(fs, fs', i, a, c, b) && x == sb.BBlock(b)
  }

  /** A bitmap block has been logged only for a block that file i was given. */
  ghost predicate BitsFor(sb: Super, logged: set<nat>, logged': set<nat>, fs: Fs, fs': Fs, i: nat, a: nat, c: nat) {
    forall x | x in logged' && x !in logged && InBitmap(sb, x) :: BitOf(sb, fs, fs', i, a, c, x)
  }

  lemma GainedJoins(fs: Fs, fs1: Fs, fs2: Fs, i: nat, a: nat, c: nat, b: nat)
    requires PtrsKept(fs, fs1) && PtrsKept(fs1, fs2) && (Gained(fs, fs1, i, a, c, b) || Gained(fs1, fs2, i, a, c, b))
    ensures Gained(fs, fs2, i, a, c, b)
  {
    if bn: nat :| NewAt(fs, fs1, i, bn, b) && a <= bn < c {
      assert NewAt(fs, fs2, i, bn, b);
    } else if bn: nat :| NewAt(fs1, fs2, i, bn, b) && a <= bn < c {
      assert Ptr(fs1, i, bn) == 0;
      assert NewAt(fs, fs2, i, bn, b);
    } else {
      assert IndexPtr(fs1, i) == 0 ==> IndexPtr(fs, i) == 0;
      assert IndexPtr(fs2, i) == b;
    }
  }

  lemma GainedWider(fs: Fs, fs': Fs, i: nat, a1: nat, c1: nat, a: nat, c: nat, b: nat)
    requires Gained(fs, fs', i, a1, c1, b) && (a1 >= c1 || a <= a1 <= c1 <= c)
    ensures Gained(fs, fs', i, a, c, b)
  {
    if bn: nat :| NewAt(fs, fs', i, bn, b) && a1 <= bn < c1 { assert NewAt(fs, fs', i, bn, b) && a <= bn < c; }
  }

  /** Two steps, of which each concerns some of the blocks from a up to c. */
  lemma BitsJoin(sb: Super, logged: set<nat>, logged1: set<nat>, logged2: set<nat>, fs: Fs, fs1: Fs, fs2: Fs, i: nat,
                 a1: nat, c1: nat, a2: nat, c2: nat, a: nat, c: nat)
    requires BitsFor(sb, logged, logged1, fs, fs1, i, a1, c1) && BitsFor(sb, logged1, logged2, fs1, fs2, i, a2, c2)
    requires PtrsKept(fs, fs1) && PtrsKept(fs1, fs2)
    requires (a1 >= c1 || a <= a1 <= c1 <= c) && (a2 >= c2 || a <= a2 <= c2 <= c)
    ensures BitsFor(sb, logged, logged2, fs, fs2, i, a, c)
  {
    forall x | x in logged2 && x !in logged && InBitmap(sb, x)
      ensures BitOf(sb, fs, fs2, i, a, c, x)
    {
      if x in logged1 {
        var b: nat :| Gained(fs, fs1, i, a1, c1, b) && x == sb.BBlock(b);
        GainedWider(fs, fs1, i, a1, c1, a, c, b);
        GainedJoins(fs, fs1, fs2, i, a, c, b);
      } else {
        var b: nat :| Gained(fs1, fs2, i, a2, c2, b) && x == sb.BBlock(b);
        GainedWider(fs1, fs2, i, a2, c2, a, c, b);
        GainedJoins(fs, fs1, fs2, i, a, c, b);
      }
    }
  }

  /** Logging a block that is not of the bitmap. */
  lemma BitsNone(sb: Super, logged: set<nat>, p: nat, fs: Fs, fs': Fs, i: nat, a: nat, c: nat)
    requires sb.Ok() && (p >= sb.datastart || p in logged)
    ensures BitsFor(sb, logged, logged + {p}, fs, fs', i, a, c)
  {
  }

  /** Logging a new block of the file and its bitmap block. */
  lemma BitsOne(sb: Super, logged: set<nat>, logged': set<nat>, fs: Fs, fs': Fs, i: nat, a: nat, c: nat, b: nat)
    requires sb.Ok() && Gained(fs, fs', i, a, c, b)
    requires forall x | x in logged' && x !in logged :: x == sb.BBlock(b) || x >= sb.datastart
    ensures BitsFor(sb, logged, logged', fs, fs', i, a, c)
  {
    forall x | x in logged' && x !in logged && InBitmap(sb, x)
      ensures BitOf(sb, fs, fs', i, a, c, x)
    {
      assert Gained(fs, fs', i, a, c, b) && x == sb.BBlock(b);
    }
  }

  /** From fs to fs' only blocks of logged and inode i have changed. */
  ghost predicate Covered(fs: Fs, fs': Fs, logged: set<nat>, i: nat) {
    && |fs'.inodes| == |fs.inodes| && (forall j | 0 <= j < |fs.inodes| && j != i :: fs'.inodes[j] == fs.inodes[j])
    && (forall n: nat | n !in logged :: At(fs'.block, n) == At(fs.block, n))
  }

  lemma CoveredTrans(fs: Fs, fs1: Fs, fs2: Fs, logged1: set<nat>, logged2: set<nat>, i: nat)
    requires Covered(fs, fs1, logged1, i) && Covered(fs1, fs2, logged2, i) && logged1 <= logged2
    ensures Covered(fs, fs2, logged2, i)
  {
  }

  /** The disk blocks of blocks a .. b of file i. */
  ghost function BlocksOf(fs: Fs, i: nat, a: nat, b: nat): (r: set<nat>)
    requires i < |fs.inodes| && b <= MAXFILE
    decreases b
  {
    if a >= b then {} else BlocksOf(fs, i, a, b - 1) + {Ptr(fs, i, b - 1)}
  }

  lemma {:induction false} BlocksCount(fs: Fs, i: nat, a: nat, b: nat)
    requires i < |fs.inodes| && b <= MAXFILE
    ensures |BlocksOf(fs, i, a, b)| <= if a < b then b - a else 0
    decreases b
  {
    if a < b { BlocksCount(fs, i, a, b - 1); }
  }

  lemma {:induction false} BlocksSame(fs: Fs, fs': Fs, i: nat, a: nat, b: nat)
    requires i < |fs.inodes| && b <= MAXFILE && PtrsKept(fs, fs')
    requires forall bn: nat | a <= bn < b :: Ptr(fs, i, bn) != 0
    ensures BlocksOf(fs', i, a, b) == BlocksOf(fs, i, a, b)
    decreases b
  {
    if a < b { BlocksSame(fs, fs', i, a, b - 1); }
  }

  lemma BitNumber(b: nat, bi: nat)
    requires b % BPB == 0 && bi < BPB
    ensures (b + bi) % BPB == bi && (b + bi) / BPB == b / BPB
  {
  }

  class FileSystem {
    const sb: Super
    var block: map<nat, Block>
    var inodes: seq<Inode>
    ghost var own: map<nat, Owner>
    var logged: set<nat>

    ghost function State(): (fs: Fs)
      reads this
    {
      Fs(block, inodes)
    }

    ghost predicate Valid()
      reads this
    {
      FsOk(sb, State(), own)
    }

    /** The file system on a disk image in which own says what each block is used for. */
    constructor (sb: Super, block: map<nat, Block>, inodes: seq<Inode>, ghost own: map<nat, Owner>)
      requires FsOk(sb, Fs(block, inodes), own)
      ensures Valid() && this.sb == sb && State() == Fs(block, inodes) && this.own == own && logged == {}
    {
      this.sb, this.block, this.inodes, this.own, logged := sb, block, inodes, own, {};
    }

    /** balloc's scan of the bitmap: the lowest block that is not marked. */
    method FindFree() returns (r: Option<nat>)
      requires sb.Ok()
      ensures r.Some? ==> r.value < sb.size && !Marked(sb, block, r.value) && forall x: nat | x < r.value :: Marked(sb, block, x)
      ensures r.None? ==> Full(sb, block)
    {
      var b := 0;
      while b < sb.size
        invariant b % BPB == 0 && forall x: nat | x < b && x < sb.size :: Marked(sb, block, x)
        decreases sb.size - b
      {
        var bp := At(block, sb.BBlock(b));
        var bi := 0;
        while bi < BPB && b + bi < sb.size
          invariant bi <= BPB && forall x: nat | x < b + bi && x < sb.size :: Marked(sb, block, x)
        {
          BitNumber(b, bi);
          if !Bit(bp, bi) {
            return Some(b + bi);
          }
          bi := bi + 1;
        }
        b := b + BPB;
      }
      return None;
    }

    /** balloc: marks and clears the lowest free block. None stands for the panic when there is none. */
    method Balloc() returns (r: Option<nat>)
      requires sb.Ok()
      modifies `block, `logged
      ensures r.Some? ==> && r.value < sb.size && !Marked(sb, old(block), r.value)
                          && block == Took(sb, old(block), r.value)
                          && logged == old(logged) + {sb.BBlock(r.value), r.value}
                          && forall x: nat | x < r.value :: Marked(sb, old(block), x)
      ensures r.None? ==> Full(sb, block) && block == old(block)
    {
      r := FindFree();
      if r.None? { return; }
      var b := r.value;
      block := MarkBit(sb, block, b);
      logged := logged + {sb.BBlock(b)};
      block := block[b := Zeros()];
      logged := logged + {b};
    }

    /** bmap, where the block is there or hangs from the inode itself: ip->addrs[n], allocated if need be. */
    method MapAddr(i: nat, n: nat) returns (r: Option<nat>)
      requires Valid() && i < |inodes| && inodes[i].kind != 0 && n <= NDIRECT
      modifies this
      ensures r.Some? ==> && Valid() && SameFiles(old(State()), State()) && PtrsKept(old(State()), State())
                          && r.value == inodes[i].addrs[n] != 0
                          && LoggedOnly(sb, old(logged), logged, {r.value}) && Covered(old(State()), State(), logged, i)
      ensures r.Some? ==> BitsFor(sb, old(logged), logged, old(State()), State(), i, n, if n < NDIRECT then n + 1 else n)
      ensures inodes == old(inodes) || old(inodes[i].addrs[n]) == 0
      ensures old(inodes[i].addrs[n]) != 0 ==> r.Some? && State() == old(State()) && logged == old(logged) && own == old(own)
      ensures r.None? ==> Full(sb, block)
    {
      if inodes[i].addrs[n] != 0 { return Some(inodes[i].addrs[n]); }
      ghost var fs := State();
      ghost var o := if n < NDIRECT then DataOf(i, n) else IndexOf(i);
      r := Balloc();
      if r.None? { return; }
      inodes := inodes[i := SetAddr(inodes[i], n, r.value)];
      AddrDone(sb, fs, own, i, n, r.value, o, old(logged));
      own := own[r.value := o];
    }

    /** bmap, where the block is listed in the indirect block. */
    method MapEntry(i: nat, n: nat) returns (r: Option<nat>)
      requires Valid() && i < |inodes| && inodes[i].kind != 0 && n < NINDIRECT && IndexPtr(State(), i) != 0
      modifies this
      ensures r.Some? ==> && Valid() && SameFiles(old(State()), State()) && PtrsKept(old(State()), State())
                          && r.value == Ptr(State(), i, NDIRECT + n) != 0
                          && LoggedOnly(sb, old(logged), logged, {r.value, IndexPtr(State(), i)})
      ensures inodes == old(inodes) && (r.Some? ==> Covered(old(State()), State(), logged, i))
      ensures r.Some? ==> BitsFor(sb, old(logged), logged, old(State()), State(), i, NDIRECT + n, NDIRECT + n + 1)
      ensures Ptr(old(State()), i, NDIRECT + n) != 0 ==>
                r.Some? && State() == old(State()) && logged == old(logged) && own == old(own)
      ensures r.None? ==> Full(sb, block)
    {
      var index := inodes[i].addrs[NDIRECT];
      var addr := Word(At(block, index), n);
      if addr != 0 { return Some(addr); }
      ghost var fs := State();
      ghost var o := DataOf(i, NDIRECT + n);
      r := Balloc();
      if r.None? { return; }
      block := block[index := SetWord(At(block, index), n, r.value)];
      logged := logged + {index};
      EntryDone(sb, fs, own, i, n, r.value, old(logged));
      own := own[r.value := o];
    }

    /** bmap: the disk block of block bn of file i, allocated if there was none. No file's bytes change. None
        stands for balloc's panic; bn >= MAXFILE is a panic too. */
    method Bmap(i: nat, bn: nat) returns (r: Option<nat>)
      requires Valid() && i < |inodes| && inodes[i].kind != 0 && bn < MAXFILE
      modifies this
      ensures r.Some? ==> && Valid() && SameFiles(old(State()), State()) && PtrsKept(old(State()), State())
                          && r.value == Ptr(State(), i, bn) != 0
                          && LoggedOnly(sb, old(logged), logged, {r.value, IndexPtr(State(), i)})
      ensures r.Some? ==> Covered(old(State()), State(), logged, i)
      ensures r.Some? ==> BitsFor(sb, old(logged), logged, old(State()), State(), i, bn, bn + 1)
      ensures Ptr(old(State()), i, bn) != 0 ==>
                r.Some? && State() == old(State()) && logged == old(logged) && own == old(own)
      ensures r.None? ==> Full(sb, block)
    {
      if bn < NDIRECT {
        r := MapAddr(i, bn);
        return;
      }
      ghost var fs := State();
      r := MapAddr(i, NDIRECT);
      if r.None? { return; }
      ghost var fs1, logged1 := State(), logged;
      r := MapEntry(i, bn - NDIRECT);
      if r.None? { return; }
      CoveredTrans(fs, fs1, State(), logged1, logged, i);
      BitsJoin(sb, old(logged), logged1, logged, fs, fs1, State(), i, NDIRECT, NDIRECT, bn, bn + 1, bn, bn + 1);
      KeptTrans(fs, fs1, State());
      SameTrans(fs, fs1, State());
    }

    /** The bytes of one round of readi or writei: to the end of the block, and no more than are left. */
    static function Round(off: nat, left: nat): (m: nat)
      ensures left > 0 ==> 0 < m <= left && off % BSIZE + m <= BSIZE
      ensures m == left || (off + m) % BSIZE == 0
    {
      if left < BSIZE - off % BSIZE then left else BSIZE - off % BSIZE
    }

    /** One round of readi: m bytes of one block, which is there. */
    method ReadRound(i: nat, at: nat, m: nat) returns (data: seq<Byte>)
      requires Valid() && i < |inodes| && inodes[i].kind != 0 && 0 < m && at % BSIZE + m <= BSIZE
      requires at + m <= inodes[i].size <= MAXFILE * BSIZE
      modifies this
      ensures Valid() && State() == old(State()) && logged == old(logged) && own == old(own)
      ensures data == Content(State(), i)[at..at + m]
    {
      assert NoHole(State(), i, at / BSIZE);
      var p := Bmap(i, at / BSIZE);
      RoundBytes(State(), i, at, m);
      data := At(block, p.value)[at % BSIZE..at % BSIZE + m];
    }

    /** readi: exactly the bytes of off .. off + n that are below the size; none where off is past the end or
        off + n wraps. It allocates nothing. */
    method ReadI(i: nat, off: nat, n: nat) returns (dst: seq<Byte>)
      requires Valid() && i < |inodes| && inodes[i].kind != 0 && off < U32 && n < U32
      modifies this
      ensures Valid() && State() == old(State()) && logged == old(logged) && own == old(own)
      ensures inodes[i].size <= MAXFILE * BSIZE
      ensures off > inodes[i].size || off + n >= U32 ==> dst == []
      ensures off <= inodes[i].size && off + n < U32 ==>
                dst == Content(State(), i)[off..if off + n > inodes[i].size then inodes[i].size else off + n]
    {
      assert InodeOk(inodes[i]);
      if off > inodes[i].size || (off + n) % U32 < off { return []; }
      dst := ReadLoop(i, off, if off + n > inodes[i].size then inodes[i].size - off else n);
    }

    /** The loop of readi, below the size. */
    method ReadLoop(i: nat, off: nat, left: nat) returns (dst: seq<Byte>)
      requires Valid() && i < |inodes| && inodes[i].kind != 0 && off + left <= inodes[i].size <= MAXFILE * BSIZE
      modifies this
      ensures Valid() && State() == old(State()) && logged == old(logged) && own == old(own)
      ensures dst == Content(State(), i)[off..off + left]
    {
      dst := [];
      ghost var c := Content(State(), i);
      while |dst| < left
        invariant Valid() && State() == old(State()) && logged == old(logged) && own == old(own)
        invariant |dst| <= left && dst == c[off..off + |dst|]
      {
        var at := off + |dst|;
        var m := Round(at, left - |dst|);
        var data := ReadRound(i, at, m);
        assert c[off..at] + c[at..at + m] == c[off..at + m];
        dst := dst + data;
      }
    }
  }

  /** What one round of readi copies is the file's bytes. */
  lemma RoundBytes(fs: Fs, i: nat, at: nat, m: nat)
    requires i < |fs.inodes| && at + m <= fs.inodes[i].size <= MAXFILE * BSIZE && 0 < m && at % BSIZE + m <= BSIZE
    requires Ptr(fs, i, at / BSIZE) != 0
    ensures At(fs.block, Ptr(fs, i, at / BSIZE))[at % BSIZE..at % BSIZE + m] == Content(fs, i)[at..at + m]
  {
    var data := At(fs.block, Ptr(fs, i, at / BSIZE))[at % BSIZE..at % BSIZE + m];
    forall k: nat | k < m ensures data[k] == Content(fs, i)[at..at + m][k] {
      InBlock(at, m, at + k);
    }
  }

  /** ip->addrs[n] = balloc(dev), all that it keeps. */
  lemma AddrDone(sb: Super, fs: Fs, own: map<nat, Owner>, i: nat, n: nat, b: nat, o: Owner, logged: set<nat>)
    requires FsOk(sb, fs, own) && i < |fs.inodes| && n <= NDIRECT && b < sb.size && !Marked(sb, fs.block, b)
    requires o == (if n < NDIRECT then DataOf(i, n) else IndexOf(i)) && Vacant(fs, o)
    ensures var fs' := WithAddr(sb, fs, i, n, b);
            FsOk(sb, fs', own[b := o]) && SameFiles(fs, fs') && PtrsKept(fs, fs')
    ensures b != 0 && LoggedOnly(sb, logged, logged + {sb.BBlock(b), b}, {b})
    ensures BitsFor(sb, logged, logged + {sb.BBlock(b), b}, fs, WithAddr(sb, fs, i, n, b), i, n,
                    if n < NDIRECT then n + 1 else n)
  {
    var fs' := WithAddr(sb, fs, i, n, b);
    NewBlock(sb, fs, own, b, i, 0);
    BitmapRange(sb, b);
    AddrAttached(sb, fs, own, i, n, b, o);
    AttachAll(sb, fs, fs', own, b, o);
    if n < NDIRECT { assert NewAt(fs, fs', i, n, b); }
    BitsOne(sb, logged, logged + {sb.BBlock(b), b}, fs, fs', i, n, if n < NDIRECT then n + 1 else n, b);
  }

  /** a[n] = balloc(dev), all that it keeps. */
  lemma EntryDone(sb: Super, fs: Fs, own: map<nat, Owner>, i: nat, n: nat, b: nat, logged: set<nat>)
    requires FsOk(sb, fs, own) && i < |fs.inodes| && n < NINDIRECT && b < sb.size && !Marked(sb, fs.block, b)
    requires IndexPtr(fs, i) != 0 && Vacant(fs, DataOf(i, NDIRECT + n))
    ensures b < U32
    ensures var fs' := WithEntry(sb, fs, i, n, b);
            && FsOk(sb, fs', own[b := DataOf(i, NDIRECT + n)]) && SameFiles(fs, fs') && PtrsKept(fs, fs')
            && Ptr(fs', i, NDIRECT + n) == b && IndexPtr(fs', i) == IndexPtr(fs, i)
    ensures b != 0 && LoggedOnly(sb, logged, logged + {sb.BBlock(b), b} + {IndexPtr(fs, i)}, {b, IndexPtr(fs, i)})
    ensures BitsFor(sb, logged, logged + {sb.BBlock(b), b} + {IndexPtr(fs, i)}, fs, WithEntry(sb, fs, i, n, b), i,
                    NDIRECT + n, NDIRECT + n + 1)
  {
    var fs', logged' := WithEntry(sb, fs, i, n, b), logged + {sb.BBlock(b), b} + {IndexPtr(fs, i)};
    NewBlock(sb, fs, own, b, i, 0);
    BitmapRange(sb, b);
    EntryAttached(sb, fs, own, i, n, b);
    AttachAll(sb, fs, fs', own, b, DataOf(i, NDIRECT + n));
    assert NewAt(fs, fs', i, NDIRECT + n, b);
    BitsOne(sb, logged, logged', fs, fs', i, NDIRECT + n, NDIRECT + n + 1, b);
  }

  lemma BitmapRange(sb: Super, b: nat)
    requires sb.Ok() && b < sb.size
    ensures sb.bmapstart <= sb.BBlock(b) <= sb.bmapstart + (sb.size - 1) / BPB
  {
    assert b / BPB <= (sb.size - 1) / BPB;
  }
}
