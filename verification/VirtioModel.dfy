/** The virtio block driver's queue (kernel/virtio_disk.c, kernel/virtio.h; sections 2.6 and 5.2 of VIRTIO 1.1):
    descriptors, the two rings with their 16-bit indices, and the requests in flight. */
module VirtioModel {
  import opened Options
  import opened Collections

  const NUM: nat := 128
  const U16: nat := 0x1_0000

  /** What a descriptor points at: a request header, a buffer, or a status byte. */
  datatype Addr = Nowhere | Header(i: nat) | Buffer(b: nat) | Status(i: nat)

  datatype Desc = Desc(addr: Addr, len: nat, hasNext: bool, devWrites: bool, next: nat)

  const BLANK: Desc := Desc(Nowhere, 0, false, false, 0)

  /** b->blockno * (BSIZE / 512), which the driver computes in 32 bits. */
  function Sector(blockno: nat): (sector: nat)
    ensures sector == 2 * blockno <==> blockno < 0x8000_0000
  {
    blockno * 2 % 0x1_0000_0000
  }

  /** Two blocks share a sector exactly when they agree in all but the top bit of a 32-bit block number. */
  lemma SectorShared(b1: nat, b2: nat)
    ensures Sector(b1) == Sector(b2) <==> b1 % 0x8000_0000 == b2 % 0x8000_0000
  {
    SectorHalf(b1);
    SectorHalf(b2);
  }

  lemma SectorHalf(b: nat)
    ensures Sector(b) == 2 * (b % 0x8000_0000)
  {
    var q, r := b / 0x8000_0000, b % 0x8000_0000;
    assert 2 * b == 0x1_0000_0000 * q + 2 * r;
  }

  datatype Op = Op(write: bool, sector: nat)

  datatype Info = Info(buf: Option<nat>, status: nat)

  /** The memory driver and device share, and the driver's own notes. busy holds the buffers with b->disk == 1. */
  datatype Queue = Queue(free: seq<bool>, desc: seq<Desc>, ops: seq<Op>, info: seq<Info>,
                         availRing: seq<nat>, availIdx: nat, usedRing: seq<nat>, usedIdx: nat, seenIdx: nat, busy: set<nat>)

  /** Where a request is: in the avail ring, with the device, in the used ring, or acknowledged. */
  datatype Phase = Posted | Taken | Done | Acked

  /** A request in flight: its three descriptors and what it asks for. */
  datatype Chain = Chain(i0: nat, i1: nat, i2: nat, write: bool, blockno: nat, phase: Phase)

  /** The queue with the requests in flight by buffer, the owner of each descriptor, and the unread entries of
      both rings, the first of which are the takenN-th and seenN-th ever written. */
  datatype Sys = Sys(q: Queue, flight: map<nat, Chain>, owner: seq<Option<nat>>,
                     posted: seq<nat>, done: seq<nat>, takenN: nat, seenN: nat)

  // ---------------------------------------------------------------- the invariant

  predicate SizesOk(s: Sys) {
    && |s.q.free| == |s.q.desc| == |s.q.ops| == |s.q.info| == |s.q.availRing| == |s.q.usedRing| == |s.owner| == NUM
    && s.q.availIdx == (s.takenN + |s.posted|) % U16 && s.q.usedIdx == (s.seenN + |s.done|) % U16
    && s.q.seenIdx == s.seenN % U16
  }

  /** The descriptors spell out request c for buffer b, as section 5.2 asks: header, data, status. */
  predicate Formatted(q: Queue, b: nat, c: Chain)
    requires c.i0 < |q.desc| && c.i1 < |q.desc| && c.i2 < |q.desc| && |q.ops| == |q.desc|
  {
    && q.desc[c.i0] == Desc(Header(c.i0), 16, true, false, c.i1)
    && q.desc[c.i1] == Desc(Buffer(b), 1024, true, !c.write, c.i2)
    && q.desc[c.i2] == Desc(Status(c.i0), 1, false, true, 0)
    && q.ops[c.i0] == Op(c.write, Sector(c.blockno))
  }

  predicate ChainOk(s: Sys, b: nat)
    requires b in s.flight && SizesOk(s)
  {
    var c := s.flight[b];
    && c.i0 < NUM && c.i1 < NUM && c.i2 < NUM && c.i0 != c.i1 && c.i1 != c.i2 && c.i0 != c.i2
    && s.owner[c.i0] == s.owner[c.i1] == s.owner[c.i2] == Some(b)
    && Formatted(s.q, b, c) && s.q.info[c.i0].buf == Some(b)
    && (b in s.q.busy <==> c.phase != Acked) && (c.phase == Done ==> s.q.info[c.i0].status == 0)
    && (c.phase == Posted ==> b in s.posted) && (c.phase == Done ==> b in s.done)
  }

  predicate OwnerOk(s: Sys, i: nat)
    requires SizesOk(s) && i < NUM
  {
    && (s.q.free[i] <==> s.owner[i].None?) && (s.q.free[i] ==> s.q.desc[i] == BLANK)
    && (s.owner[i].Some? ==> var b := s.owner[i].value; b in s.flight && (i == s.flight[b].i0 || i == s.flight[b].i1 || i == s.flight[b].i2))
  }

  predicate PostedOk(s: Sys, j: nat)
    requires SizesOk(s) && j < |s.posted|
  {
    var b := s.posted[j];
    b in s.flight && s.flight[b].phase == Posted && s.q.availRing[(s.takenN + j) % NUM] == s.flight[b].i0
  }

  predicate DoneOk(s: Sys, j: nat)
    requires SizesOk(s) && j < |s.done|
  {
    var b := s.done[j];
    b in s.flight && s.flight[b].phase == Done && s.q.usedRing[(s.seenN + j) % NUM] == s.flight[b].i0
  }

  predicate ChainsOk(s: Sys)
    requires SizesOk(s)
  {
    forall b {:trigger ChainOk(s, b)} | b in s.flight :: ChainOk(s, b)
  }

  predicate OwnersOk(s: Sys)
    requires SizesOk(s)
  {
    forall i: nat {:trigger OwnerOk(s, i)} | i < NUM :: OwnerOk(s, i)
  }

  predicate RingsOk(s: Sys)
    requires SizesOk(s)
  {
    && Distinct(s.posted) && Distinct(s.done)
    && (forall j: nat {:trigger PostedOk(s, j)} | j < |s.posted| :: PostedOk(s, j))
    && (forall j: nat {:trigger DoneOk(s, j)} | j < |s.done| :: DoneOk(s, j))
  }

  /** The requests in flight hold disjoint triples of descriptors whose complement is free[], each spelling out
      its request; and each ring holds, unread and in order, exactly the requests in that phase. */
  predicate Inv(s: Sys) {
    SizesOk(s) && ChainsOk(s) && OwnersOk(s) && RingsOk(s) && s.q.busy <= s.flight.Keys
  }

  /** What a device reads from the chain at h, following next where a descriptor has one. */
  datatype Request = Request(buf: nat, write: bool, sector: nat)

  function Decode(q: Queue, h: nat): (r: Option<Request>)
    requires |q.desc| == |q.ops| == NUM
  {
    if h >= NUM || !q.desc[h].hasNext || !q.desc[h].addr.Header? || q.desc[h].addr.i >= NUM then None else
      var op, d := q.ops[q.desc[h].addr.i], q.desc[h].next;
      if d >= NUM || !q.desc[d].hasNext || !q.desc[d].addr.Buffer? || q.desc[d].devWrites == op.write then None else
        var t := q.desc[d].next;
        if t >= NUM || q.desc[t].hasNext || q.desc[t].addr != Status(h) then None
        else Some(Request(q.desc[d].addr.b, op.write, op.sector))
  }

  // ---------------------------------------------------------------- arithmetic of the rings

  /** The ring slot of a 16-bit index is that of the count it stands for. */
  lemma SlotOf(n: nat)
    ensures (n % U16) % NUM == n % NUM
  {
    assert n == n / U16 * U16 + n % U16;
    assert n == (n / U16 * 512 + n % U16 / NUM) * NUM + (n % U16) % NUM;
  }

  /** Entries less than a ring apart have different slots. */
  lemma SlotsApart(n: nat, j: nat, k: nat)
    requires j < k < j + NUM
    ensures (n + j) % NUM != (n + k) % NUM
  {
  }

  /** Two counts less than 2^16 apart differ exactly when their 16-bit indices do. */
  lemma IndexDiffers(n: nat, d: nat)
    requires d < U16
    ensures n % U16 != (n + d) % U16 <==> d > 0
  {
  }

  /** The numbers below n. */
  ghost function Below(n: nat): (r: set<nat>)
    ensures |r| == n && forall i: nat :: i in r <==> i < n
  {
    if n == 0 then {} else Below(n - 1) + {n - 1}
  }

  lemma Pigeonhole(s: seq<nat>, n: nat)
    requires Distinct(s) && forall i | 0 <= i < |s| :: s[i] < n
    ensures |s| <= n
  {
    ElementCount(s);
    SubsetCount(Elements(s), Below(n));
  }
}
