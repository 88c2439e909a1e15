/** The buffer cache of kernel/bio.c: NBUF buffers on a doubly linked ring ordered by how
    recently they were released, reference counts, sleep-locks and pins. Each method is one
    critical section, so every interleaving of threads is a sequence of calls. */
module BufferCache {
  import opened Options
  import opened LogLayout
  import opened CacheModel

  class Cache {
    var prev: seq<nat>
    var next: seq<nat>
    var buf: seq<Buf>
    var disk: Disk
    ghost var order: seq<nat>              // the ring, from head.next
    ghost var stamp: seq<nat>              // when each buffer's count last fell to zero in brelse
    ghost var clock: nat
    ghost var refs: seq<multiset<nat>>     // the threads between bget and brelse
    ghost var pins: seq<nat>
    ghost var trace: seq<Disk>             // the disk after each block write

    ghost predicate Valid()
      reads this
    {
      && RingOk(prev, next, order, stamp, clock)
      && BufsOk(buf, refs, pins, disk)
    }

    ghost function Cur(n: nat): (v: Block)
      requires n in disk
      reads this
    {
      Current(buf, disk, n)
    }

    method PushFront(b: nat)
      requires Linked(prev, next, order) && b < NBUF && b !in order
      modifies this`order, this`prev, this`next
      ensures Linked(prev, next, order) && order == [b] + old(order)
    {
      PushFrontKeeps(prev, next, order, b);
      next := next[b := next[HEAD]];
      prev := prev[b := HEAD];
      prev := prev[next[HEAD] := b];
      next := next[HEAD := b];
      order := [b] + order;
    }

    method Unlink(b: nat, ghost k: nat)
      requires Linked(prev, next, order) && k < |order| && order[k] == b
      modifies this`order, this`prev, this`next
      ensures Linked(prev, next, order) && order == Without(old(order), k)
    {
      UnlinkKeeps(prev, next, order, k);
      assert At(order, k) == b && next[b] == At(order, k + 1) && prev[b] == At(order, k - 1);
      prev := prev[next[b] := prev[b]];
      next := next[prev[b] := next[b]];
      order := Without(order, k);
    }

    /** binit: an empty ring, then every buffer pushed to the front. */
    constructor (d: Disk)
      ensures Valid() && disk == d && trace == []
      ensures refs == seq(NBUF, _ => multiset{}) && pins == seq(NBUF, _ => 0)
      ensures order == seq(NBUF, i => NBUF - 1 - i)
    {
      prev := seq(NBUF + 1, _ => HEAD);
      next := seq(NBUF + 1, _ => HEAD);
      buf := seq(NBUF, _ => Buf(false, 0, 0, 0, None, seq(WORDS, _ => 0)));
      disk, trace := d, [];
      refs, pins := seq(NBUF, _ => multiset{}), seq(NBUF, _ => 0);
      stamp, clock := seq(NBUF, i => i), NBUF;
      order := [];
      new;
      var b := 0;
      while b < NBUF
        invariant b <= NBUF && Linked(prev, next, order)
        invariant order == seq(b, i => b - 1 - i)
        modifies this`prev, this`next, this`order
      {
        PushFront(b);
        b := b + 1;
      }
      FreshLru(order, stamp);
    }

    /** The hit scan of bget, from head.next. */
    method FindKey(dev: nat, n: nat) returns (b: nat)
      requires Valid()
      ensures b < NBUF ==> buf[b].HasKey(dev, n)
      ensures b >= NBUF ==> forall c | 0 <= c < NBUF :: !buf[c].HasKey(dev, n)
    {
      ghost var k := 0;
      assert At(order, -1) == HEAD;
      b := next[HEAD];
      while b != HEAD
        invariant 0 <= k <= NBUF && b == At(order, k)
        invariant forall j | 0 <= j < k :: !buf[order[j]].HasKey(dev, n)
        decreases NBUF - k
      {
        if buf[b].HasKey(dev, n) { return; }
        assert next[At(order, k)] == At(order, k + 1);
        b, k := next[b], k + 1;
      }
      forall c: nat | c < NBUF
        ensures !buf[c].HasKey(dev, n)
      {
        assert c in order;
      }
    }

    /** The recycling scan of bget, from head.prev: the unused buffer released longest ago. */
    method FindUnused() returns (b: nat)
      requires Valid()
      ensures b < NBUF ==> buf[b].refcnt == 0
      ensures b < NBUF ==> forall c | 0 <= c < NBUF && buf[c].refcnt == 0 :: stamp[b] <= stamp[c]
      ensures b >= NBUF ==> forall c | 0 <= c < NBUF :: buf[c].refcnt > 0
    {
      ghost var k := NBUF - 1;
      assert At(order, NBUF) == HEAD;
      b := prev[HEAD];
      while b != HEAD
        invariant -1 <= k < NBUF && b == At(order, k)
        invariant forall j | k < j < NBUF :: buf[order[j]].refcnt > 0
        decreases k
      {
        if buf[b].refcnt == 0 {
          forall c: nat | c < NBUF && buf[c].refcnt == 0
            ensures stamp[b] <= stamp[c]
          {
            assert c in order;
          }
          return;
        }
        assert prev[At(order, k)] == At(order, k - 1);
        b, k := prev[b], k - 1;
      }
      forall c: nat | c < NBUF
        ensures buf[c].refcnt > 0
      {
        assert c in order;
      }
    }

    /** bget up to acquiresleep: ok is false where the source panics for want of buffers. */
    method Bget(t: nat, n: nat) returns (ok: bool, b: nat)
      requires Valid() && n in disk
      modifies this`refs, this`buf
      ensures Valid()
      ensures !ok <==> forall c | 0 <= c < NBUF :: !old(buf)[c].HasKey(ROOTDEV, n) && old(buf)[c].refcnt > 0
      ensures !ok ==> buf == old(buf) && refs == old(refs)
      ensures ok ==> && b < NBUF && Taken(old(buf), b, n, buf[b]) && buf == old(buf)[b := buf[b]]
                     && refs == old(refs)[b := old(refs)[b] + multiset{t}]
      ensures ok && !old(buf)[b].HasKey(ROOTDEV, n) ==>
                && old(refs)[b] == multiset{} && pins[b] == 0
                && forall c | 0 <= c < NBUF && old(buf)[c].refcnt == 0 :: stamp[b] <= stamp[c]
      ensures SameBlocks(old(buf), old(disk), buf, disk)
    {
      b := FindKey(ROOTDEV, n);
      ok := b < NBUF;
      if !ok {
        b := FindUnused();
        ok := b < NBUF;
        if !ok { return; }
      }
      var e := if buf[b].HasKey(ROOTDEV, n) then buf[b].(refcnt := buf[b].refcnt + 1)
               else Buf(false, ROOTDEV, n, 1, None, buf[b].data);
      TakenKeeps(buf, refs, pins, disk, b, n, e, t);
      TakenSame(buf, refs, pins, disk, b, n, e);
      buf := buf[b := e];
      refs := refs[b := refs[b] + multiset{t}];
    }

    /** acquiresleep on a free buffer lock, then the disk read of bread if the buffer holds nothing yet. */
    method AcquireAndFill(t: nat, b: nat)
      requires Valid() && b < NBUF && t in refs[b] && buf[b].holder.None? && buf[b].dev == ROOTDEV
      modifies this`buf
      ensures Valid()
      ensures old(buf)[b].blockno in disk && buf == old(buf)[b := Locked(old(buf)[b], t, disk)]
      ensures SameBlocks(old(buf), old(disk), buf, disk)
    {
      Updated(buf, refs, pins, disk, b, Locked(buf[b], t, disk), refs, pins);
      buf := buf[b := buf[b].(holder := Some(t))];
      if !buf[b].valid {
        buf := buf[b := buf[b].(data := disk[buf[b].blockno], valid := true)];
      }
      assert buf == old(buf)[b := Locked(old(buf)[b], t, disk)];
    }

    /** bread: the buffer comes back locked by t and holding the block's current contents; the caller
        would sleep while another thread has the buffer locked. */
    method Bread(t: nat, n: nat) returns (ok: bool, b: nat)
      requires Valid() && n in disk
      requires forall c | 0 <= c < NBUF && buf[c].HasKey(ROOTDEV, n) :: buf[c].holder.None?
      modifies this`refs, this`buf
      ensures Valid()
      ensures ok ==> ReadBy(old(buf), pins, disk, n, t, b, buf) && refs == old(refs)[b := old(refs)[b] + multiset{t}]
      ensures !ok ==> buf == old(buf) && refs == old(refs) && NoBuffers(buf)
      ensures SameBlocks(old(buf), old(disk), buf, disk)
    {
      ok, b := Bget(t, n);
      if !ok { return; }
      ghost var bs1 := buf;
      AcquireAndFill(t, b);
      SameBlocksTrans(old(buf), bs1, buf, disk);
      BreadDone(old(buf), old(refs), pins, disk, n, t, b, bs1[b], buf);
    }

    /** A client stores into a buffer it has locked. */
    method Store(t: nat, b: nat, v: Block)
      requires Valid() && b < NBUF && buf[b].holder == Some(t) && buf[b].valid
      modifies this`buf
      ensures Valid() && buf == old(buf)[b := old(buf)[b].(data := v)]
      ensures forall m | m in disk :: Cur(m) == if m == buf[b].blockno then v else old(Cur(m))
    {
      var e := buf[b].(data := v);
      Stored(buf, refs, pins, disk, b, v);
      buf := buf[b := e];
    }

    /** bwrite: one atomic block write. */
    method Bwrite(t: nat, b: nat)
      requires Valid() && b < NBUF && buf[b].holder == Some(t) && buf[b].valid
      modifies this`disk, this`trace
      ensures Valid()
      ensures buf[b].blockno in old(disk) && disk == old(disk)[buf[b].blockno := buf[b].data]
      ensures trace == old(trace) + [disk]
      ensures SameBlocks(old(buf), old(disk), buf, disk)
    {
      WriteOutSame(buf, pins, disk, b);
      CurrentIs(buf, disk, b);
      disk := disk[buf[b].blockno := buf[b].data];
      trace := trace + [disk];
    }

    method MoveToFront(b: nat)
      requires Linked(prev, next, order) && Lru(order, stamp, clock) && b < NBUF
      modifies this`order, this`prev, this`next, this`stamp, this`clock
      ensures Linked(prev, next, order) && Lru(order, stamp, clock)
      ensures stamp == old(stamp)[b := old(clock)]
      ensures exists k | 0 <= k < NBUF :: old(order)[k] == b && order == ToFront(old(order), k)
    {
      assert b in order;
      ghost var k :| 0 <= k < NBUF && order[k] == b;
      ReleaseOrder(order, stamp, clock, k);
      Unlink(b, k);
      assert b !in order;
      PushFront(b);
      stamp, clock := stamp[b := clock], clock + 1;
    }

    /** brelse. The client's rule: an unpinned buffer goes back only if it agrees with the disk. */
    method Brelse(t: nat, b: nat)
      requires Valid() && b < NBUF && buf[b].holder == Some(t) && buf[b].valid
      requires pins[b] > 0 || buf[b].data == disk[buf[b].blockno]
      modifies this`buf, this`refs, this`order, this`prev, this`next, this`stamp, this`clock
      ensures Valid()
      ensures old(buf)[b].refcnt > 0 && buf == old(buf)[b := Released(old(buf)[b])]
      ensures refs == old(refs)[b := old(refs)[b] - multiset{t}]
      ensures buf[b].refcnt > 0 ==> order == old(order) && stamp == old(stamp)
      ensures buf[b].refcnt == 0 ==>
                && stamp == old(stamp)[b := old(clock)]
                && exists k | 0 <= k < NBUF :: old(order)[k] == b && order == ToFront(old(order), k)
      ensures SameBlocks(old(buf), old(disk), buf, disk)
    {
      var e := Released(buf[b]);
      Updated(buf, refs, pins, disk, b, e, refs[b := refs[b] - multiset{t}], pins);
      buf := buf[b := e];
      refs := refs[b := refs[b] - multiset{t}];
      if e.refcnt == 0 {
        MoveToFront(b);
      }
    }

    method Bpin(b: nat)
      requires Valid() && b < NBUF && buf[b].valid
      modifies this`buf, this`pins
      ensures Valid() && pins == old(pins)[b := old(pins)[b] + 1]
      ensures buf == old(buf)[b := old(buf)[b].(refcnt := old(buf)[b].refcnt + 1)]
      ensures SameBlocks(old(buf), old(disk), buf, disk)
    {
      var e := buf[b].(refcnt := buf[b].refcnt + 1);
      ghost var p := pins[b] + 1;
      Repinned(buf, refs, pins, disk, b, e, p);
      buf := buf[b := e];
      pins := pins[b := p];
    }

    method Bunpin(t: nat, b: nat)
      requires Valid() && b < NBUF && buf[b].valid && buf[b].holder == Some(t) && pins[b] > 0
      modifies this`buf, this`pins
      ensures Valid() && pins == old(pins)[b := old(pins)[b] - 1]
      ensures buf == old(buf)[b := old(buf)[b].(refcnt := old(buf)[b].refcnt - 1)]
      ensures SameBlocks(old(buf), old(disk), buf, disk)
    {
      var e := buf[b].(refcnt := buf[b].refcnt - 1);
      ghost var p := pins[b] - 1;
      Repinned(buf, refs, pins, disk, b, e, p);
      buf := buf[b := e];
      pins := pins[b := p];
    }
  }
}
