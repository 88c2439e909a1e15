/** Values and laws behind the buffer cache of kernel/bio.c: the ring of buffers, keys,
    reference counts, and what a block currently holds. */
module CacheModel {
  import opened Options
  import opened Collections
  import opened LogLayout

  const NBUF: nat := 30
  const HEAD: nat := NBUF     // the list head sits after the buffers
  const ROOTDEV: nat := 1

  datatype Buf = Buf(valid: bool, dev: nat, blockno: nat, refcnt: nat, holder: Option<nat>, data: Block) {
    predicate HasKey(d: nat, n: nat) { dev == d && blockno == n }
  }

  // ---------------------------------------------------------------- the ring

  /** The i-th node of the ring, the head standing at both ends. */
  function At(order: seq<nat>, i: int): nat {
    if 0 <= i < |order| then order[i] else HEAD
  }

  predicate InRange(order: seq<nat>) {
    forall i | 0 <= i < |order| :: order[i] < NBUF
  }

  /** prev and next thread the head and then exactly order, both ways round. */
  ghost predicate Linked(prev: seq<nat>, next: seq<nat>, order: seq<nat>) {
    && |prev| == |next| == NBUF + 1
    && InRange(order) && Distinct(order)
    && (forall i | -1 <= i < |order| :: next[At(order, i)] == At(order, i + 1))
    && (forall i | 0 <= i <= |order| :: prev[At(order, i)] == At(order, i - 1))
  }

  function Without(order: seq<nat>, k: nat): (r: seq<nat>)
    requires k < |order|
  {
    order[..k] + order[k + 1..]
  }

  lemma UnlinkKeeps(prev: seq<nat>, next: seq<nat>, order: seq<nat>, k: nat)
    requires Linked(prev, next, order) && k < |order|
    ensures var b := order[k];
            && prev[b] <= NBUF && next[b] <= NBUF
            && Linked(prev[next[b] := prev[b]], next[prev[b] := next[b]], Without(order, k))
  {
    var b := order[k];
    var r := Without(order, k);
    assert At(order, k) == b && prev[b] == At(order, k - 1) && next[b] == At(order, k + 1);
    forall i | -1 <= i < |r|
      ensures next[prev[b] := next[b]][At(r, i)] == At(r, i + 1)
    {
      assert At(r, i) == if i < k then At(order, i) else At(order, i + 1);
      assert At(r, i + 1) == if i + 1 < k then At(order, i + 1) else At(order, i + 2);
    }
    forall i | 0 <= i <= |r|
      ensures prev[next[b] := prev[b]][At(r, i)] == At(r, i - 1)
    {
      assert At(r, i) == if i < k then At(order, i) else At(order, i + 1);
      assert At(r, i - 1) == if i - 1 < k then At(order, i - 1) else At(order, i);
    }
  }

  lemma PushFrontKeeps(prev: seq<nat>, next: seq<nat>, order: seq<nat>, b: nat)
    requires Linked(prev, next, order) && b < NBUF && b !in order
    ensures var n := next[HEAD];
            && n <= NBUF
            && Linked(prev[b := HEAD][n := b], next[b := n][HEAD := b], [b] + order)
  {
    var r := [b] + order;
    var n := next[HEAD];
    assert At(order, -1) == HEAD && n == At(order, 0);
    var next' := next[b := n][HEAD := b];
    var prev' := prev[b := HEAD][n := b];
    forall i | -1 <= i < |r|
      ensures next'[At(r, i)] == At(r, i + 1)
    {
      assert i >= 0 ==> At(r, i + 1) == At(order, i);
      assert i >= 1 ==> At(r, i) == At(order, i - 1) && At(r, i) != b && At(r, i) != HEAD;
    }
    forall i | 0 <= i <= |r|
      ensures prev'[At(r, i)] == At(r, i - 1)
    {
      assert i >= 1 ==> At(r, i) == At(order, i - 1);
      assert i >= 2 ==> At(r, i) != n && At(r, i) != b && At(r, i - 1) == At(order, i - 2);
    }
  }

  // ---------------------------------------------------------------- what the fields promise

  /** Buffers i and j are in use for the same block. */
  ghost predicate Twins(bs: seq<Buf>, i: nat, j: nat)
    requires i < |bs| && j < |bs|
  {
    bs[i].dev != 0 && bs[j].HasKey(bs[i].dev, bs[i].blockno)
  }

  /** At most one buffer per block of the disk. */
  ghost predicate Keys(bs: seq<Buf>, disk: Disk) {
    && (forall i, j {:trigger Twins(bs, i, j)} | 0 <= i < j < |bs| :: !Twins(bs, i, j))
    && (forall i | 0 <= i < |bs| && bs[i].dev != 0 :: bs[i].dev == ROOTDEV && bs[i].blockno in disk)
    && (forall i | 0 <= i < |bs| && (bs[i].valid || bs[i].refcnt > 0) :: bs[i].dev == ROOTDEV)
  }

  lemma OneBuffer(bs: seq<Buf>, disk: Disk, i: nat, j: nat)
    requires Keys(bs, disk) && i < |bs| && j < |bs| && Twins(bs, i, j)
    ensures i == j
  {
    assert Twins(bs, j, i);
  }

  lemma OnlyBuffer(bs: seq<Buf>, disk: Disk, b: nat)
    requires Keys(bs, disk) && b < |bs| && bs[b].valid
    ensures forall i | 0 <= i < |bs| && bs[i].valid && bs[i].blockno == bs[b].blockno :: i == b
  {
    forall i | 0 <= i < |bs| && bs[i].valid && bs[i].blockno == bs[b].blockno
      ensures i == b
    {
      OneBuffer(bs, disk, b, i);
    }
  }

  /** Buffer b gets the key it had, or one that no buffer has. */
  lemma KeysUpdated(bs: seq<Buf>, disk: Disk, b: nat, e: Buf)
    requires Keys(bs, disk) && b < |bs|
    requires e.HasKey(bs[b].dev, bs[b].blockno) || forall c | 0 <= c < |bs| :: !bs[c].HasKey(e.dev, e.blockno)
    requires (e.dev != 0 ==> e.dev == ROOTDEV && e.blockno in disk) && (e.valid || e.refcnt > 0 ==> e.dev == ROOTDEV)
    ensures Keys(bs[b := e], disk)
  {
    var bs' := bs[b := e];
    forall i, j {:trigger Twins(bs', i, j)} | 0 <= i < j < |bs|
      ensures !Twins(bs', i, j)
    {
      assert !Twins(bs, i, j);
    }
  }

  /** refcnt counts the threads between bget and brelse, plus the log's pins. */
  ghost predicate Counts(bs: seq<Buf>, refs: seq<multiset<nat>>, pins: seq<nat>) {
    && |refs| == |pins| == |bs| == NBUF
    && (forall i | 0 <= i < NBUF :: bs[i].refcnt == |refs[i]| + pins[i])
    && (forall i | 0 <= i < NBUF && bs[i].holder.Some? :: bs[i].holder.value in refs[i])
  }

  /** A buffer that is neither locked nor pinned agrees with the disk. */
  ghost predicate Coherent(bs: seq<Buf>, pins: seq<nat>, disk: Disk)
    requires |pins| == |bs|
  {
    forall i | 0 <= i < |bs| && bs[i].valid && bs[i].holder.None? && pins[i] == 0 ::
      bs[i].blockno in disk && bs[i].data == disk[bs[i].blockno]
  }

  /** The ring holds every buffer, most recently released first. */
  ghost predicate Lru(order: seq<nat>, stamp: seq<nat>, clock: nat) {
    && |order| == |stamp| == NBUF && InRange(order)
    && (forall b: nat | b < NBUF :: b in order && stamp[b] < clock)
    && (forall i, j | 0 <= i < j < NBUF :: stamp[order[i]] > stamp[order[j]])
  }

  ghost predicate Holds(bs: seq<Buf>, i: int, n: nat) {
    0 <= i < |bs| && bs[i].valid && bs[i].HasKey(ROOTDEV, n)
  }

  /** The valid buffer with block n's key, looking from buffer i on. */
  ghost function Find(bs: seq<Buf>, n: nat, i: nat): (r: Option<nat>)
    decreases |bs| - i
  {
    if i >= |bs| then None else if Holds(bs, i, n) then Some(i) else Find(bs, n, i + 1)
  }

  /** The current contents of block n: the cached copy if there is one. */
  ghost function Current(bs: seq<Buf>, disk: Disk, n: nat): (v: Block)
    requires n in disk
  {
    var r := Find(bs, n, 0);
    if r.Some? && r.value < |bs| then bs[r.value].data else disk[n]
  }

  lemma {:induction false} FindFinds(bs: seq<Buf>, n: nat, i: nat)
    ensures Find(bs, n, i).Some? ==> Holds(bs, Find(bs, n, i).value, n)
    ensures Find(bs, n, i).None? ==> forall k: nat | i <= k :: !Holds(bs, k, n)
    decreases |bs| - i
  {
    if i < |bs| { FindFinds(bs, n, i + 1); }
  }

  lemma CurrentIs(bs: seq<Buf>, disk: Disk, i: nat)
    requires i < |bs| && bs[i].valid && Keys(bs, disk)
    ensures bs[i].blockno in disk && Current(bs, disk, bs[i].blockno) == bs[i].data
  {
    assert Holds(bs, i, bs[i].blockno);
    FindFinds(bs, bs[i].blockno, 0);
    OneBuffer(bs, disk, i, Find(bs, bs[i].blockno, 0).value);
  }

  lemma NotCached(bs: seq<Buf>, disk: Disk, n: nat)
    requires n in disk && forall i: nat | i < |bs| :: !Holds(bs, i, n)
    ensures Current(bs, disk, n) == disk[n]
  {
    FindFinds(bs, n, 0);
  }

  /** Replacing buffer b by one that leaves block contents alone leaves every block's contents alone. */
  lemma SameCurrentAt(bs: seq<Buf>, bs': seq<Buf>, disk: Disk, b: nat, n: nat)
    requires Keys(bs, disk) && Keys(bs', disk) && |bs'| == |bs| && b < |bs| && n in disk
    requires forall i | 0 <= i < |bs| && i != b :: bs'[i] == bs[i]
    requires bs[b].valid ==> bs[b].data == if bs'[b].valid && bs'[b].blockno == bs[b].blockno then bs'[b].data else disk[bs[b].blockno]
    requires bs'[b].valid ==> bs'[b].data == Current(bs, disk, bs'[b].blockno)
    ensures Current(bs', disk, n) == Current(bs, disk, n)
  {
    if i: nat :| i < |bs| && Holds(bs', i, n) {
      CurrentIs(bs', disk, i);
      if i != b { CurrentIs(bs, disk, i); }
    } else {
      NotCached(bs', disk, n);
      if i: nat :| i < |bs| && Holds(bs, i, n) {
        CurrentIs(bs, disk, i);
        assert !Holds(bs', i, n) && !Holds(bs', b, n);
      } else {
        NotCached(bs, disk, n);
      }
    }
  }

  lemma SameCurrent(bs: seq<Buf>, bs': seq<Buf>, disk: Disk, b: nat)
    requires Keys(bs, disk) && Keys(bs', disk) && |bs'| == |bs| && b < |bs|
    requires forall i | 0 <= i < |bs| && i != b :: bs'[i] == bs[i]
    requires bs[b].valid ==> bs[b].data == if bs'[b].valid && bs'[b].blockno == bs[b].blockno then bs'[b].data else disk[bs[b].blockno]
    requires bs'[b].valid ==> bs'[b].data == Current(bs, disk, bs'[b].blockno)
    ensures forall n | n in disk :: Current(bs', disk, n) == Current(bs, disk, n)
  {
    forall n | n in disk
      ensures Current(bs', disk, n) == Current(bs, disk, n)
    {
      SameCurrentAt(bs, bs', disk, b, n);
    }
  }

  lemma FreshLru(order: seq<nat>, stamp: seq<nat>)
    requires order == seq(NBUF, i => NBUF - 1 - i) && stamp == seq(NBUF, i => i)
    ensures Lru(order, stamp, NBUF)
  {
    forall b: nat | b < NBUF ensures b in order { assert order[NBUF - 1 - b] == b; }
  }

  /** One more user of a buffer: the same buffer, or an unused one given a new key. */
  ghost predicate Taken(bs: seq<Buf>, b: nat, n: nat, e: Buf)
    requires b < |bs|
  {
    || (bs[b].HasKey(ROOTDEV, n) && e == bs[b].(refcnt := bs[b].refcnt + 1))
    || (&& bs[b].refcnt == 0 && e == Buf(false, ROOTDEV, n, 1, None, bs[b].data)
        && forall c | 0 <= c < |bs| :: !bs[c].HasKey(ROOTDEV, n))
  }

  lemma TakenKeeps(bs: seq<Buf>, refs: seq<multiset<nat>>, pins: seq<nat>, disk: Disk, b: nat, n: nat, e: Buf, t: nat)
    requires Keys(bs, disk) && Counts(bs, refs, pins) && Coherent(bs, pins, disk)
    requires b < |bs| && n in disk && Taken(bs, b, n, e)
    ensures Keys(bs[b := e], disk) && Counts(bs[b := e], refs[b := refs[b] + multiset{t}], pins)
    ensures Coherent(bs[b := e], pins, disk)
  {
    if bs[b].refcnt == 0 { assert refs[b] == multiset{}; }
    KeysUpdated(bs, disk, b, e);
  }

  lemma TakenSame(bs: seq<Buf>, refs: seq<multiset<nat>>, pins: seq<nat>, disk: Disk, b: nat, n: nat, e: Buf)
    requires Keys(bs, disk) && Counts(bs, refs, pins) && Coherent(bs, pins, disk)
    requires b < |bs| && n in disk && Taken(bs, b, n, e) && Keys(bs[b := e], disk)
    ensures forall m | m in disk :: Current(bs[b := e], disk, m) == Current(bs, disk, m)
  {
    if bs[b].valid { CurrentIs(bs, disk, b); }
    if bs[b].refcnt == 0 { assert refs[b] == multiset{} && bs[b].holder.None?; }
    SameCurrent(bs, bs[b := e], disk, b);
  }

  /** A new state for one buffer, with its key kept. */
  lemma UpdateKeeps(bs: seq<Buf>, refs: seq<multiset<nat>>, pins: seq<nat>, disk: Disk, b: nat, e: Buf,
                    r: multiset<nat>, p: nat)
    requires Keys(bs, disk) && Counts(bs, refs, pins) && Coherent(bs, pins, disk) && b < NBUF
    requires e.dev == bs[b].dev && e.blockno == bs[b].blockno && (e.valid || e.refcnt > 0 ==> e.dev == ROOTDEV)
    requires e.refcnt == |r| + p && (e.holder.Some? ==> e.holder.value in r)
    requires e.valid && e.holder.None? && p == 0 ==> e.data == disk[e.blockno]
    ensures Keys(bs[b := e], disk) && Counts(bs[b := e], refs[b := r], pins[b := p])
    ensures Coherent(bs[b := e], pins[b := p], disk)
  {
    KeysUpdated(bs, disk, b, e);
  }

  lemma UpdateSame(bs: seq<Buf>, disk: Disk, b: nat, e: Buf)
    requires b < |bs| && Keys(bs, disk) && Keys(bs[b := e], disk)
    requires e.HasKey(bs[b].dev, bs[b].blockno)
    requires bs[b].valid ==> e.valid && e.data == bs[b].data
    requires e.valid && !bs[b].valid ==> e.blockno in disk && e.data == disk[e.blockno]
    ensures forall m | m in disk :: Current(bs[b := e], disk, m) == Current(bs, disk, m)
  {
    if bs[b].valid { CurrentIs(bs, disk, b); }
    if !bs[b].valid && e.valid {
      assert bs[b := e][b] == e && bs[b].dev == ROOTDEV;
      forall i: nat | i < |bs|
        ensures !Holds(bs, i, e.blockno)
      {
        if Holds(bs, i, e.blockno) { OneBuffer(bs, disk, b, i); }
      }
      NotCached(bs, disk, e.blockno);
    }
    SameCurrent(bs, bs[b := e], disk, b);
  }

  /** Storing into a valid buffer changes its block and no other. */
  lemma StoreChanges(bs: seq<Buf>, disk: Disk, b: nat, v: Block)
    requires Keys(bs, disk) && b < |bs| && bs[b].valid
    requires Keys(bs[b := bs[b].(data := v)], disk)
    ensures forall m | m in disk ::
              Current(bs[b := bs[b].(data := v)], disk, m) == if m == bs[b].blockno then v else Current(bs, disk, m)
  {
    var bs' := bs[b := bs[b].(data := v)];
    CurrentIs(bs', disk, b);
    forall m | m in disk && m != bs[b].blockno
      ensures Current(bs', disk, m) == Current(bs, disk, m)
    {
      if i: nat :| i < |bs| && Holds(bs', i, m) {
        CurrentIs(bs', disk, i);
        CurrentIs(bs, disk, i);
      } else {
        assert forall i: nat | i < |bs| :: Holds(bs, i, m) ==> Holds(bs', i, m);
        NotCached(bs', disk, m);
        NotCached(bs, disk, m);
      }
    }
  }

  /** Writing a buffer out leaves what every block currently holds. */
  lemma WriteOutSame(bs: seq<Buf>, pins: seq<nat>, disk: Disk, b: nat)
    requires Keys(bs, disk) && b < |bs| == |pins| && bs[b].valid && Coherent(bs, pins, disk)
    ensures var disk' := disk[bs[b].blockno := bs[b].data];
            && Keys(bs, disk') && Coherent(bs, pins, disk')
            && forall m | m in disk :: Current(bs, disk', m) == Current(bs, disk, m)
  {
    var disk' := disk[bs[b].blockno := bs[b].data];
    CurrentIs(bs, disk, b);
    assert disk'.Keys == disk.Keys;
    CurrentIs(bs, disk', b);
    OnlyBuffer(bs, disk, b);
    forall m | m in disk && m != bs[b].blockno
      ensures Current(bs, disk', m) == Current(bs, disk, m)
    {
      if i: nat :| i < |bs| && Holds(bs, i, m) {
        CurrentIs(bs, disk', i);
        CurrentIs(bs, disk, i);
      } else {
        NotCached(bs, disk', m);
        NotCached(bs, disk, m);
      }
    }
  }

  /** order with its k-th buffer moved to the front. */
  function ToFront(order: seq<nat>, k: nat): (r: seq<nat>)
    requires k < |order|
    ensures |r| == |order| && r[0] == order[k]
    ensures forall j | 1 <= j < |r| :: r[j] == order[if j <= k then j - 1 else j]
  {
    [order[k]] + Without(order, k)
  }

  /** The released buffer comes to the front; the others keep their order. */
  lemma ReleaseOrder(order: seq<nat>, stamp: seq<nat>, clock: nat, k: nat)
    requires Lru(order, stamp, clock) && k < NBUF
    ensures Lru(ToFront(order, k), stamp[order[k] := clock], clock + 1)
  {
    var b := order[k];
    var r := ToFront(order, k);
    assert forall j | 1 <= j < NBUF :: r[j] != b;
    forall c: nat | c < NBUF
      ensures c in r
    {
      assert c in order;
      var j :| 0 <= j < NBUF && order[j] == c;
      assert j == k ==> r[0] == c;
      assert j < k ==> r[j + 1] == c;
      assert j > k ==> r[j] == c;
    }
  }

  ghost predicate RingOk(prev: seq<nat>, next: seq<nat>, order: seq<nat>, stamp: seq<nat>, clock: nat) {
    Linked(prev, next, order) && Lru(order, stamp, clock)
  }

  ghost predicate BufsOk(bs: seq<Buf>, refs: seq<multiset<nat>>, pins: seq<nat>, disk: Disk) {
    Keys(bs, disk) && Counts(bs, refs, pins) && Coherent(bs, pins, disk)
  }

  /** Every block of the disk currently holds what it held. */
  ghost predicate SameBlocks(bs: seq<Buf>, disk: Disk, bs': seq<Buf>, disk': Disk) {
    && disk'.Keys == disk.Keys
    && forall m | m in disk :: Current(bs', disk', m) == Current(bs, disk, m)
  }

  /** Same buffers and counts, except that buffer b becomes e. */
  ghost predicate OnlyAt<T>(s: seq<T>, s': seq<T>, b: nat) {
    |s'| == |s| && forall i | 0 <= i < |s| && i != b :: s'[i] == s[i]
  }

  /** A new state for buffer b that keeps its key and its block's contents. */
  lemma Updated(bs: seq<Buf>, refs: seq<multiset<nat>>, pins: seq<nat>, disk: Disk, b: nat, e: Buf,
                refs': seq<multiset<nat>>, pins': seq<nat>)
    requires BufsOk(bs, refs, pins, disk) && b < NBUF
    requires OnlyAt(refs, refs', b) && OnlyAt(pins, pins', b)
    requires e.HasKey(bs[b].dev, bs[b].blockno) && (e.valid || e.refcnt > 0 ==> e.dev == ROOTDEV)
    requires e.refcnt == |refs'[b]| + pins'[b] && (e.holder.Some? ==> e.holder.value in refs'[b])
    requires bs[b].valid ==> e.valid && e.data == bs[b].data
    requires e.valid && (!bs[b].valid || (e.holder.None? && pins'[b] == 0)) ==> e.data == disk[e.blockno]
    ensures BufsOk(bs[b := e], refs', pins', disk)
    ensures SameBlocks(bs, disk, bs[b := e], disk)
  {
    UpdateKeeps(bs, refs, pins, disk, b, e, refs'[b], pins'[b]);
    assert refs[b := refs'[b]] == refs' && pins[b := pins'[b]] == pins';
    UpdateSame(bs, disk, b, e);
  }

  lemma Repinned(bs: seq<Buf>, refs: seq<multiset<nat>>, pins: seq<nat>, disk: Disk, b: nat, e: Buf, p: nat)
    requires BufsOk(bs, refs, pins, disk) && b < NBUF && bs[b].valid && (bs[b].holder.Some? || p > 0)
    requires e == bs[b].(refcnt := e.refcnt) && e.refcnt - bs[b].refcnt == p - pins[b]
    ensures BufsOk(bs[b := e], refs, pins[b := p], disk) && SameBlocks(bs, disk, bs[b := e], disk)
  {
    UpdateKeeps(bs, refs, pins, disk, b, e, refs[b], p);
    assert refs[b := refs[b]] == refs;
    UpdateSame(bs, disk, b, e);
  }

  /** The buffer locked by t, and read from the disk if it held nothing. */
  function Locked(e: Buf, t: nat, disk: Disk): (e': Buf)
    requires e.blockno in disk
  {
    e.(holder := Some(t), valid := true, data := if e.valid then e.data else disk[e.blockno])
  }

  /** Every buffer is in use: bget has none to recycle. */
  ghost predicate NoBuffers(bs: seq<Buf>) {
    forall c | 0 <= c < |bs| :: bs[c].refcnt > 0
  }

  /** Buffer b of bs' is locked by t and holds what block n currently holds. */
  ghost predicate ReadBy(bs: seq<Buf>, pins: seq<nat>, disk: Disk, n: nat, t: nat, b: nat, bs': seq<Buf>) {
    && b < |bs| == |pins| && n in disk && OnlyAt(bs, bs', b)
    && var e, e' := bs[b], bs'[b];
       && e'.valid && e'.HasKey(ROOTDEV, n) && e'.holder == Some(t) && e'.data == Current(bs, disk, n)
       && (pins[b] > 0 || e'.data == disk[n])
       && (e.HasKey(ROOTDEV, n) || (e.refcnt == 0 && e.holder.None? && pins[b] == 0))
  }

  /** What bread has done: bget took the buffer, then it was locked and filled. */
  lemma BreadDone(bs: seq<Buf>, refs: seq<multiset<nat>>, pins: seq<nat>, disk: Disk, n: nat, t: nat, b: nat, e: Buf,
                  bs': seq<Buf>)
    requires BufsOk(bs, refs, pins, disk) && b < NBUF && n in disk && Taken(bs, b, n, e)
    requires bs' == bs[b := e][b := Locked(e, t, disk)] && Keys(bs', disk)
    requires bs[b].HasKey(ROOTDEV, n) ==> bs[b].holder.None?
    requires SameBlocks(bs, disk, bs', disk)
    ensures ReadBy(bs, pins, disk, n, t, b, bs')
  {
    CurrentIs(bs', disk, b);
  }

  /** A locked buffer's contents change. */
  lemma Stored(bs: seq<Buf>, refs: seq<multiset<nat>>, pins: seq<nat>, disk: Disk, b: nat, v: Block)
    requires BufsOk(bs, refs, pins, disk) && b < NBUF && bs[b].valid && bs[b].holder.Some?
    ensures BufsOk(bs[b := bs[b].(data := v)], refs, pins, disk)
    ensures forall m | m in disk ::
              Current(bs[b := bs[b].(data := v)], disk, m) == if m == bs[b].blockno then v else Current(bs, disk, m)
  {
    UpdateKeeps(bs, refs, pins, disk, b, bs[b].(data := v), refs[b], pins[b]);
    assert refs[b := refs[b]] == refs && pins[b := pins[b]] == pins;
    StoreChanges(bs, disk, b, v);
  }

  lemma SameBlocksTrans(bs: seq<Buf>, bs1: seq<Buf>, bs2: seq<Buf>, disk: Disk)
    requires SameBlocks(bs, disk, bs1, disk) && SameBlocks(bs1, disk, bs2, disk)
    ensures SameBlocks(bs, disk, bs2, disk)
  {
  }

  // ---------------------------------------------------------------- the log's view of the cache

  /** The log has pinned exactly the blocks of p, once each. */
  ghost predicate PinnedBlocks(bs: seq<Buf>, pins: seq<nat>, p: seq<nat>)
    requires |pins| == |bs|
  {
    && (forall c | 0 <= c < |bs| && pins[c] > 0 :: bs[c].valid && pins[c] == 1 && bs[c].blockno in p)
    && (forall n | n in p :: exists c :: Holds(bs, c, n) && pins[c] == 1)
  }

  /** If buffer c is locked, it is for a block of r, and what it holds agrees with the disk. */
  ghost predicate ReadOnly(bs: seq<Buf>, disk: Disk, r: set<nat>, c: nat)
    requires c < |bs|
  {
    bs[c].holder.Some? ==>
      bs[c].blockno in r && bs[c].blockno in disk && (bs[c].valid ==> bs[c].data == disk[bs[c].blockno])
  }

  /** The buffers outside mine that are locked are locked by readers of blocks of r. */
  ghost predicate Readers(bs: seq<Buf>, disk: Disk, r: set<nat>, mine: set<nat>) {
    forall c | 0 <= c < |bs| && c !in mine :: ReadOnly(bs, disk, r, c)
  }

  /** A block that nobody reads, and that I do not hold, has no locked buffer. */
  lemma FreeToRead(bs: seq<Buf>, disk: Disk, r: set<nat>, mine: set<nat>, n: nat)
    requires Readers(bs, disk, r, mine) && n !in r && forall c | 0 <= c < |bs| && c in mine :: bs[c].blockno != n
    ensures forall c | 0 <= c < |bs| && bs[c].HasKey(ROOTDEV, n) :: bs[c].holder.None?
  {
    forall c | 0 <= c < |bs| && bs[c].HasKey(ROOTDEV, n)
      ensures bs[c].holder.None?
    {
      assert ReadOnly(bs, disk, r, c);
    }
  }

  /** Changing a buffer that becomes mine, or that is left unlocked, leaves the readers alone. */
  lemma StillReaders(bs: seq<Buf>, disk: Disk, r: set<nat>, mine: set<nat>, b: nat, bs': seq<Buf>, disk': Disk,
                     mine': set<nat>)
    requires Readers(bs, disk, r, mine) && b < |bs| && OnlyAt(bs, bs', b)
    requires disk'.Keys == disk.Keys && forall m | m in disk && m in r :: disk'[m] == disk[m]
    requires mine <= mine' + {b} && (b in mine' || bs'[b].holder.None?)
    ensures Readers(bs', disk', r, mine')
  {
    forall c | 0 <= c < |bs'| && c !in mine'
      ensures ReadOnly(bs', disk', r, c)
    {
      if c != b { assert ReadOnly(bs, disk, r, c); }
    }
  }

  /** Thread t holds buffer b for block n, and may release it. */
  ghost predicate Held(bs: seq<Buf>, pins: seq<nat>, disk: Disk, b: nat, n: nat, t: nat) {
    && b < |bs| == |pins| && n in disk
    && var e := bs[b];
       e.valid && e.HasKey(ROOTDEV, n) && e.holder == Some(t) && (pins[b] > 0 || e.data == disk[n])
  }

  /** A buffer that changes but stays valid for the same block keeps the pinned blocks pinned. */
  lemma SameKeyPinned(bs: seq<Buf>, pins: seq<nat>, p: seq<nat>, b: nat, bs': seq<Buf>)
    requires |pins| == |bs| && PinnedBlocks(bs, pins, p) && b < |bs| && OnlyAt(bs, bs', b)
    requires bs'[b].HasKey(bs[b].dev, bs[b].blockno) && (bs[b].valid ==> bs'[b].valid)
    ensures PinnedBlocks(bs', pins, p)
  {
    forall n | n in p
      ensures exists c :: Holds(bs', c, n) && pins[c] == 1
    {
      var c :| Holds(bs, c, n) && pins[c] == 1;
      assert Holds(bs', c, n);
    }
  }

  /** So does recycling an unused buffer. */
  lemma StillPinned(bs: seq<Buf>, refs: seq<multiset<nat>>, pins: seq<nat>, p: seq<nat>, b: nat, bs': seq<Buf>)
    requires Counts(bs, refs, pins) && PinnedBlocks(bs, pins, p) && b < NBUF && OnlyAt(bs, bs', b)
    requires bs[b].refcnt == 0 || (bs'[b].HasKey(bs[b].dev, bs[b].blockno) && (bs[b].valid ==> bs'[b].valid))
    ensures PinnedBlocks(bs', pins, p)
  {
    if bs[b].refcnt != 0 {
      SameKeyPinned(bs, pins, p, b, bs');
    } else {
      forall n | n in p
        ensures exists c :: Holds(bs', c, n) && pins[c] == 1
      {
        var c :| Holds(bs, c, n) && pins[c] == 1;
        assert Holds(bs', c, n);
      }
    }
  }

  lemma NowUnpinned(bs: seq<Buf>, pins: seq<nat>, disk: Disk, p: seq<nat>, b: nat, p': seq<nat>)
    requires Keys(bs, disk) && |pins| == |bs| && PinnedBlocks(bs, pins, p) && b < |bs| && bs[b].valid
    requires bs[b].blockno in p && bs[b].blockno !in p' && forall n | n != bs[b].blockno :: n in p' <==> n in p
    ensures pins[b] == 1 && PinnedBlocks(bs, pins[b := 0], p')
  {
    var c :| Holds(bs, c, bs[b].blockno) && pins[c] == 1;
    OnlyBuffer(bs, disk, b);
    assert c == b;
    forall n | n in p'
      ensures exists c :: Holds(bs, c, n) && pins[b := 0][c] == 1
    {
      var c :| Holds(bs, c, n) && pins[c] == 1;
      assert Holds(bs, c, n) && pins[b := 0][c] == 1;
    }
  }

  /** The log has pinned p; other threads have locked only blocks of r, and only to read them. */
  ghost predicate Quiet(bs: seq<Buf>, pins: seq<nat>, disk: Disk, p: seq<nat>, r: set<nat>) {
    && |pins| == |bs| && PinnedBlocks(bs, pins, p)
    && Readers(bs, disk, r, {})
  }

  /** Thread t holds the buffer of block n; any other locked buffer is a reader's. */
  ghost predicate OneHeld(bs: seq<Buf>, pins: seq<nat>, disk: Disk, p: seq<nat>, r: set<nat>, t: nat, n: nat, b: nat) {
    && |bs| == |pins| == NBUF && n !in r && Held(bs, pins, disk, b, n, t) && PinnedBlocks(bs, pins, p)
    && Readers(bs, disk, r, {b})
  }

  /** Thread t holds the buffers of blocks n1 and n2, which hold what the blocks currently hold; any other
      locked buffer is a reader's; p is what the log has pinned. */
  ghost predicate TwoHeld(bs: seq<Buf>, pins: seq<nat>, disk: Disk, p: seq<nat>, r: set<nat>, t: nat, n1: nat, b1: nat,
                          n2: nat, b2: nat) {
    && |bs| == |pins| == NBUF && b1 != b2 && n1 != n2 && n1 !in r && n2 !in r
    && Held(bs, pins, disk, b1, n1, t) && Held(bs, pins, disk, b2, n2, t) && PinnedBlocks(bs, pins, p)
    && Readers(bs, disk, r, {b1, b2})
  }

  lemma FirstRead(bs: seq<Buf>, refs: seq<multiset<nat>>, pins: seq<nat>, disk: Disk, p: seq<nat>, r: set<nat>, t: nat,
                  n1: nat, b1: nat, bs1: seq<Buf>)
    requires BufsOk(bs, refs, pins, disk) && Quiet(bs, pins, disk, p, r) && n1 !in r
             && ReadBy(bs, pins, disk, n1, t, b1, bs1)
    ensures OneHeld(bs1, pins, disk, p, r, t, n1, b1)
  {
    StillPinned(bs, refs, pins, p, b1, bs1);
    StillReaders(bs, disk, r, {}, b1, bs1, disk, {b1});
  }

  lemma SecondRead(bs1: seq<Buf>, refs1: seq<multiset<nat>>, pins: seq<nat>, disk: Disk, p: seq<nat>, r: set<nat>,
                   t: nat, n1: nat, b1: nat, n2: nat, b2: nat, bs2: seq<Buf>)
    requires BufsOk(bs1, refs1, pins, disk) && n1 != n2 && n2 !in r && OneHeld(bs1, pins, disk, p, r, t, n1, b1)
    requires ReadBy(bs1, pins, disk, n2, t, b2, bs2)
    ensures TwoHeld(bs2, pins, disk, p, r, t, n1, b1, n2, b2)
  {
    assert refs1[b1] != multiset{};
    StillPinned(bs1, refs1, pins, p, b2, bs2);
    StillReaders(bs1, disk, r, {b1}, b2, bs2, disk, {b1, b2});
  }

  /** Block n2 now holds what block n1 held; every other block holds what it held. */
  ghost predicate CopiedOver(bs: seq<Buf>, disk: Disk, bs': seq<Buf>, disk': Disk, n1: nat, n2: nat) {
    && n1 in disk && n2 in disk && disk' == disk[n2 := Current(bs, disk, n1)]
    && forall m | m in disk :: Current(bs', disk', m) == Current(bs, disk, if m == n2 then n1 else m)
  }

  function Released(e: Buf): (e': Buf)
    requires e.refcnt > 0
  {
    e.(holder := None, refcnt := e.refcnt - 1)
  }

  lemma FirstReleased(bs: seq<Buf>, refs: seq<multiset<nat>>, pins: seq<nat>, disk: Disk, p: seq<nat>, r: set<nat>,
                      t: nat, n1: nat, b1: nat, n2: nat, b2: nat)
    requires BufsOk(bs, refs, pins, disk) && TwoHeld(bs, pins, disk, p, r, t, n1, b1, n2, b2)
    ensures bs[b1].refcnt > 0
    ensures OneHeld(bs[b1 := Released(bs[b1])], pins, disk, p, r, t, n2, b2)
  {
    assert refs[b1] != multiset{};
    StillPinned(bs, refs, pins, p, b1, bs[b1 := Released(bs[b1])]);
    StillReaders(bs, disk, r, {b1, b2}, b1, bs[b1 := Released(bs[b1])], disk, {b2});
  }

  /** Releasing the last locked buffer leaves the cache quiet. */
  lemma LastReleased(bs: seq<Buf>, refs: seq<multiset<nat>>, pins: seq<nat>, disk: Disk, p: seq<nat>, r: set<nat>,
                     t: nat, n: nat, b: nat)
    requires BufsOk(bs, refs, pins, disk) && OneHeld(bs, pins, disk, p, r, t, n, b)
    ensures bs[b].refcnt > 0 && Quiet(bs[b := Released(bs[b])], pins, disk, p, r)
  {
    assert refs[b] != multiset{};
    StillPinned(bs, refs, pins, p, b, bs[b := Released(bs[b])]);
    StillReaders(bs, disk, r, {b}, b, bs[b := Released(bs[b])], disk, {});
  }

  ghost predicate ReleasedAt(bs: seq<Buf>, b: nat, bs': seq<Buf>) {
    && b < |bs| && bs[b].refcnt > 0
    && bs' == bs[b := Released(bs[b])]
  }

  /** What log_write does to the buffers, the pins and the log: the block is absorbed, or appended and pinned. */
  ghost predicate LogWritten(bs: seq<Buf>, pins: seq<nat>, lh: seq<nat>, b: nat, n: nat, bs': seq<Buf>, pins': seq<nat>,
                             lh': seq<nat>)
    requires b < |bs| == |pins|
  {
    var e := bs[b].(refcnt := bs[b].refcnt + 1);
    if n in lh then bs' == bs && pins' == pins && lh' == lh
    else pins[b] == 0 && pins' == pins[b := 1] && lh' == lh + [n] && bs' == bs[b := e]
  }

  lemma DestinationPinned(bs: seq<Buf>, pins: seq<nat>, disk: Disk, p: seq<nat>, t: nat, n: nat, b: nat)
    requires Keys(bs, disk) && Held(bs, pins, disk, b, n, t) && PinnedBlocks(bs, pins, p) && n in p
    ensures pins[b] == 1
  {
    var c :| Holds(bs, c, n) && pins[c] == 1;
    OneBuffer(bs, disk, b, c);
  }

  lemma DestinationUnpinned(bs: seq<Buf>, pins: seq<nat>, disk: Disk, p: seq<nat>, r: set<nat>, t: nat, n1: nat,
                            b1: nat, n2: nat, b2: nat, p': seq<nat>, bs': seq<Buf>)
    requires Keys(bs, disk) && TwoHeld(bs, pins, disk, p, r, t, n1, b1, n2, b2)
    requires Dropped(p, n2, p') && bs[b2].data == disk[n2]
    requires OnlyAt(bs, bs', b2) && bs'[b2] == bs[b2].(refcnt := bs'[b2].refcnt)
    ensures TwoHeld(bs', pins[b2 := 0], disk, p', r, t, n1, b1, n2, b2)
  {
    NowUnpinned(bs, pins, disk, p, b2, p');
    StillReaders(bs, disk, r, {b1, b2}, b2, bs', disk, {b1, b2});
    SameKeyPinned(bs, pins[b2 := 0], p', b2, bs');
  }

  /** The destination pinned, as install_trans finds it; p' is what stays pinned. */
  ghost predicate Dropped(p: seq<nat>, n: nat, p': seq<nat>) {
    n in p && n !in p' && forall m | m != n :: m in p' <==> m in p
  }

  /** bs' and disk' are bs and disk once buffer b1 has been copied over buffer b2 and b2 written out. */
  ghost predicate CopyWritten(bs: seq<Buf>, disk: Disk, b1: nat, b2: nat, bs': seq<Buf>, disk': Disk) {
    && b1 < |bs| && b2 < |bs|
    && bs' == bs[b2 := bs[b2].(data := bs[b1].data)] && disk' == disk[bs[b2].blockno := bs[b1].data]
  }

  /** The buffers two breads returned, and what each of them left in the cache. */
  datatype Round = Round(b1: nat, bs1: seq<Buf>, b2: nat, bs2: seq<Buf>)

  /** bread of n1, then bread of n2. */
  ghost predicate ReadTwo(bs: seq<Buf>, pins: seq<nat>, disk: Disk, n1: nat, n2: nat, t: nat, k: Round) {
    var b1, b2 := k.b1, k.b2;
    && ReadBy(bs, pins, disk, n1, t, b1, k.bs1) && Keys(k.bs1, disk)
    && ReadBy(k.bs1, pins, disk, n2, t, b2, k.bs2) && Keys(k.bs2, disk) && b1 != b2
  }

  /** A round of write_log or install_trans that held both buffers in bs, once b1 has been copied over b2 and written
      out, and b2 unpinned if asked. */
  ghost predicate Copied(bs: seq<Buf>, pins: seq<nat>, disk: Disk, b1: nat, b2: nat, unpin: bool, bs': seq<Buf>,
                         pins': seq<nat>, disk': Disk) {
    && b1 < |bs| == |bs'| == |pins| && b2 < |bs|
    && var e1, e2 := bs[b1], bs[b2];
       && OnlyAt(bs, bs', b2) && bs'[b2] == e2.(data := e1.data, refcnt := bs'[b2].refcnt)
       && pins' == (if unpin then pins[b2 := 0] else pins) && disk' == disk[e2.blockno := e1.data]
  }

  /** The same, once both buffers have been released. */
  ghost predicate RoundLeft(bs: seq<Buf>, pins: seq<nat>, disk: Disk, b1: nat, b2: nat, unpin: bool, bs': seq<Buf>,
                            pins': seq<nat>, disk': Disk) {
    && b1 < |bs| == |bs'| == |pins| && b2 < |bs|
    && var e1, e2 := bs[b1], bs[b2];
       && (forall c | 0 <= c < |bs| && c != b1 && c != b2 :: bs'[c] == bs[c])
       && bs'[b1] == e1.(holder := None, refcnt := bs'[b1].refcnt)
       && bs'[b2] == e2.(data := e1.data, holder := None, refcnt := bs'[b2].refcnt)
       && pins' == (if unpin then pins[b2 := 0] else pins) && disk' == disk[e2.blockno := e1.data]
  }

  lemma RoundEnds(bs: seq<Buf>, pins: seq<nat>, disk: Disk, b1: nat, b2: nat, unpin: bool, bs1: seq<Buf>,
                  pins1: seq<nat>, disk1: Disk, bs2: seq<Buf>, bs': seq<Buf>)
    requires b1 != b2 && Copied(bs, pins, disk, b1, b2, unpin, bs1, pins1, disk1)
    requires ReleasedAt(bs1, b1, bs2) && ReleasedAt(bs2, b2, bs')
    ensures RoundLeft(bs, pins, disk, b1, b2, unpin, bs', pins1, disk1)
  {
  }

  lemma CopiedHeld(bs: seq<Buf>, pins: seq<nat>, disk: Disk, t: nat, n1: nat, b1: nat, n2: nat, b2: nat, bs': seq<Buf>,
                   disk': Disk)
    requires Held(bs, pins, disk, b1, n1, t) && Held(bs, pins, disk, b2, n2, t) && n1 != n2
    requires CopyWritten(bs, disk, b1, b2, bs', disk')
    ensures Held(bs', pins, disk', b1, n1, t) && Held(bs', pins, disk', b2, n2, t)
  {
    assert bs'[b1] == bs[b1];
  }

  lemma CopiedOut(bs: seq<Buf>, pins: seq<nat>, disk: Disk, p: seq<nat>, r: set<nat>, t: nat, n1: nat, b1: nat, n2: nat,
                  b2: nat, bs': seq<Buf>, disk': Disk)
    requires TwoHeld(bs, pins, disk, p, r, t, n1, b1, n2, b2) && CopyWritten(bs, disk, b1, b2, bs', disk')
    ensures TwoHeld(bs', pins, disk', p, r, t, n1, b1, n2, b2)
  {
    CopiedHeld(bs, pins, disk, t, n1, b1, n2, b2, bs', disk');
    SameKeyPinned(bs, pins, p, b2, bs');
    StillReaders(bs, disk, r, {b1, b2}, b2, bs', disk', {b1, b2});
  }

  /** Once the round is over, the block that was written holds what the other held, and the rest what it held. */
  lemma RoundCurrent(bs: seq<Buf>, pins: seq<nat>, disk: Disk, b1: nat, b2: nat, unpin: bool, bs': seq<Buf>,
                     pins': seq<nat>, disk': Disk, m: nat)
    requires RoundLeft(bs, pins, disk, b1, b2, unpin, bs', pins', disk') && b1 != b2 && bs[b1].valid && bs[b2].valid
    requires Keys(bs, disk) && Keys(bs', disk') && m in disk
    ensures Current(bs', disk', m) == Current(bs, disk, if m == bs[b2].blockno then bs[b1].blockno else m)
  {
    if m == bs[b2].blockno {
      CurrentIs(bs, disk, b1);
      CurrentIs(bs', disk', b2);
    } else if i: nat :| i < |bs| && Holds(bs, i, m) {
      CurrentIs(bs, disk, i);
      CurrentIs(bs', disk', i);
    } else {
      forall i: nat | i < |bs'| ensures !Holds(bs', i, m) { assert !Holds(bs, i, m); }
      NotCached(bs, disk, m);
      NotCached(bs', disk', m);
    }
  }

  lemma RoundCopied(bs: seq<Buf>, bs2: seq<Buf>, pins: seq<nat>, disk: Disk, b1: nat, b2: nat, unpin: bool,
                    bs': seq<Buf>, pins': seq<nat>, disk': Disk, n1: nat, n2: nat)
    requires SameBlocks(bs, disk, bs2, disk) && RoundLeft(bs2, pins, disk, b1, b2, unpin, bs', pins', disk')
    requires b1 != b2 && bs2[b1].valid && bs2[b2].valid && bs2[b1].blockno == n1 && bs2[b2].blockno == n2
    requires Keys(bs2, disk) && Keys(bs', disk') && n1 in disk && n2 in disk
    ensures CopiedOver(bs, disk, bs', disk', n1, n2)
  {
    CurrentIs(bs2, disk, b1);
    forall m | m in disk
      ensures Current(bs', disk', m) == Current(bs, disk, if m == n2 then n1 else m)
    {
      RoundCurrent(bs2, pins, disk, b1, b2, unpin, bs', pins', disk', m);
    }
  }

  lemma TwoHeldSwap(bs: seq<Buf>, pins: seq<nat>, disk: Disk, p: seq<nat>, r: set<nat>, t: nat, n1: nat, b1: nat,
                    n2: nat, b2: nat)
    requires TwoHeld(bs, pins, disk, p, r, t, n1, b1, n2, b2)
    ensures TwoHeld(bs, pins, disk, p, r, t, n2, b2, n1, b1)
  {
    assert {b1, b2} == {b2, b1};
  }

  /** In a quiet cache an unpinned block reads as it is on disk. */
  lemma CleanIsDisk(bs: seq<Buf>, refs: seq<multiset<nat>>, pins: seq<nat>, disk: Disk, p: seq<nat>, r: set<nat>,
                    n: nat)
    requires BufsOk(bs, refs, pins, disk) && Quiet(bs, pins, disk, p, r) && n in disk && n !in p
    ensures Current(bs, disk, n) == disk[n]
  {
    if i: nat :| i < |bs| && Holds(bs, i, n) {
      CurrentIs(bs, disk, i);
      assert ReadOnly(bs, disk, r, i);
    } else {
      NotCached(bs, disk, n);
    }
  }

  /** Block n has been overwritten by v, in the cache and on the disk. */
  ghost predicate Overwritten(bs: seq<Buf>, disk: Disk, bs': seq<Buf>, disk': Disk, n: nat, v: Block) {
    && n in disk && disk' == disk[n := v]
    && forall m | m in disk && m != n :: Current(bs', disk', m) == Current(bs, disk, m)
  }

  /** What bread of n, v copied into the buffer, bwrite and brelse leave behind; bs1 is the cache after bread. */
  ghost predicate PutDone(bs: seq<Buf>, pins: seq<nat>, disk: Disk, n: nat, t: nat, v: Block, b: nat, bs1: seq<Buf>,
                          bs': seq<Buf>, disk': Disk) {
    var written := disk[n := v];
    && ReadBy(bs, pins, disk, n, t, b, bs1) && Keys(bs1, disk)
    && disk' == written && ReleasedAt(bs1[b := bs1[b].(data := v)], b, bs')
  }

  lemma PutOverwrites(bs: seq<Buf>, pins: seq<nat>, disk: Disk, n: nat, t: nat, v: Block, b: nat, bs1: seq<Buf>,
                      bs': seq<Buf>, disk': Disk)
    requires SameBlocks(bs, disk, bs1, disk) && PutDone(bs, pins, disk, n, t, v, b, bs1, bs', disk') && Keys(bs', disk')
    ensures Overwritten(bs, disk, bs', disk', n, v)
  {
    forall m | m in disk && m != n
      ensures Current(bs', disk', m) == Current(bs1, disk, m)
    {
      if i: nat :| i < |bs1| && Holds(bs1, i, m) {
        CurrentIs(bs1, disk, i);
        CurrentIs(bs', disk', i);
      } else {
        forall i: nat | i < |bs'| ensures !Holds(bs', i, m) { assert !Holds(bs1, i, m); }
        NotCached(bs1, disk, m);
        NotCached(bs', disk', m);
      }
    }
  }

  lemma StoredHeld(bs: seq<Buf>, pins: seq<nat>, disk: Disk, p: seq<nat>, r: set<nat>, t: nat, n: nat, b: nat, v: Block)
    requires OneHeld(bs, pins, disk, p, r, t, n, b)
    ensures OneHeld(bs[b := bs[b].(data := v)], pins, disk[n := v], p, r, t, n, b)
  {
    SameKeyPinned(bs, pins, p, b, bs[b := bs[b].(data := v)]);
    StillReaders(bs, disk, r, {b}, b, bs[b := bs[b].(data := v)], disk[n := v], {b});
  }

  /** Thread t has locked buffer b for block n; its data may differ from the disk. */
  ghost predicate Owned(bs: seq<Buf>, pins: seq<nat>, p: seq<nat>, t: nat, n: nat, b: nat) {
    && b < |bs| == |pins| == NBUF && PinnedBlocks(bs, pins, p)
    && var e := bs[b];
       e.valid && e.HasKey(ROOTDEV, n) && e.holder == Some(t)
  }

  /** The log's view of a buffer it has just absorbed, or appended and pinned. */
  lemma LoggedOwned(bs: seq<Buf>, pins: seq<nat>, disk: Disk, p: seq<nat>, t: nat, n: nat, b: nat, bs': seq<Buf>,
                    pins': seq<nat>, p': seq<nat>)
    requires Keys(bs, disk) && Owned(bs, pins, p, t, n, b) && LogWritten(bs, pins, p, b, n, bs', pins', p')
    ensures Owned(bs', pins', p', t, n, b) && pins'[b] == 1
  {
    if n in p {
      var c :| Holds(bs, c, n) && pins[c] == 1;
      OneBuffer(bs, disk, b, c);
    } else {
      forall m | m in p'
        ensures exists c :: Holds(bs', c, m) && pins'[c] == 1
      {
        if m == n {
          assert Holds(bs', b, n);
        } else {
          var c :| Holds(bs, c, m) && pins[c] == 1;
          assert Holds(bs', c, m) && pins'[c] == 1;
        }
      }
    }
  }
}
