/** The steps of driver and device on the virtio queue, each keeping the invariant (kernel/virtio_disk.c). */
module VirtioSteps {
  import opened Options
  import opened Collections
  import opened VirtioModel

  // ---------------------------------------------------------------- submit

  /** The queue after virtio_disk_rw has formatted descriptors i0, i1, i2, which alloc3_desc gave it, and told
      the device. */
  function Posting(q: Queue, b: nat, write: bool, blockno: nat, i0: nat, i1: nat, i2: nat): (q': Queue)
    requires |q.free| == |q.desc| == |q.ops| == |q.info| == |q.availRing| == NUM && i0 < NUM && i1 < NUM && i2 < NUM
  {
    q.(ops := q.ops[i0 := Op(write, Sector(blockno))],
       desc := q.desc[i0 := Desc(Header(i0), 16, true, false, i1)][i1 := Desc(Buffer(b), 1024, true, !write, i2)]
                     [i2 := Desc(Status(i0), 1, false, true, 0)],
       info := q.info[i0 := Info(Some(b), 0xff)], busy := q.busy + {b},
       availRing := q.availRing[q.availIdx % NUM := i0], availIdx := (q.availIdx + 1) % U16)
  }

  function Claimed(free: seq<bool>, i0: nat, i1: nat, i2: nat): (free': seq<bool>)
    requires i0 < |free| && i1 < |free| && i2 < |free|
  {
    free[i0 := false][i1 := false][i2 := false]
  }

  predicate CanSubmit(s: Sys, b: nat, i0: nat, i1: nat, i2: nat) {
    && SizesOk(s) && b !in s.flight && i0 < NUM && i1 < NUM && i2 < NUM && i0 != i1 && i1 != i2 && i0 != i2
    && s.q.free[i0] && s.q.free[i1] && s.q.free[i2]
  }

  function Submit(s: Sys, b: nat, write: bool, blockno: nat, i0: nat, i1: nat, i2: nat): (s': Sys)
    requires CanSubmit(s, b, i0, i1, i2)
  {
    Sys(Posting(s.q.(free := Claimed(s.q.free, i0, i1, i2)), b, write, blockno, i0, i1, i2),
        s.flight[b := Chain(i0, i1, i2, write, blockno, Posted)],
        s.owner[i0 := Some(b)][i1 := Some(b)][i2 := Some(b)], s.posted + [b], s.done, s.takenN, s.seenN)
  }

  /** The head descriptors of the requests in order. */
  ghost function Heads(s: Sys, r: seq<nat>): (h: seq<nat>)
    requires forall j | 0 <= j < |r| :: r[j] in s.flight
  {
    seq(|r|, j requires 0 <= j < |r| => s.flight[r[j]].i0)
  }

  /** Requests in flight number at most NUM; one that is not among them leaves room in a ring. */
  lemma RoomFor(s: Sys, r: seq<nat>, h: nat)
    requires Inv(s) && Distinct(r) && (forall j | 0 <= j < |r| :: r[j] in s.flight) && h < NUM
    requires s.owner[h].Some? ==> s.owner[h].value !in r
    ensures |r| < NUM
  {
    var hs := Heads(s, r) + [h];
    forall i, j | 0 <= i < j < |hs| ensures hs[i] != hs[j] {
      assert ChainOk(s, r[i]);
      if j < |r| { assert ChainOk(s, r[j]); }
    }
    forall j | 0 <= j < |hs| ensures hs[j] < NUM { if j < |r| { assert ChainOk(s, r[j]); } }
    Pigeonhole(hs, NUM);
  }

  lemma SubmitSizes(s: Sys, b: nat, write: bool, blockno: nat, i0: nat, i1: nat, i2: nat)
    requires Inv(s) && CanSubmit(s, b, i0, i1, i2)
    ensures SizesOk(Submit(s, b, write, blockno, i0, i1, i2))
  {
    NextIndex(s.takenN + |s.posted|);
    assert s.takenN + |s.posted + [b]| == s.takenN + |s.posted| + 1;
  }

  lemma NextIndex(n: nat)
    ensures (n % U16 + 1) % U16 == (n + 1) % U16
  {
  }

  lemma SubmitChain(s: Sys, b: nat, write: bool, blockno: nat, i0: nat, i1: nat, i2: nat, x: nat)
    requires Inv(s) && CanSubmit(s, b, i0, i1, i2) && (x == b || x in s.flight)
    ensures var s' := Submit(s, b, write, blockno, i0, i1, i2); SizesOk(s') && ChainOk(s', x)
  {
    SubmitSizes(s, b, write, blockno, i0, i1, i2);
    assert OwnerOk(s, i0) && OwnerOk(s, i1) && OwnerOk(s, i2);
    if x != b { assert ChainOk(s, x); }
  }

  lemma SubmitOwner(s: Sys, b: nat, write: bool, blockno: nat, i0: nat, i1: nat, i2: nat, i: nat)
    requires Inv(s) && CanSubmit(s, b, i0, i1, i2) && i < NUM
    ensures var s' := Submit(s, b, write, blockno, i0, i1, i2); SizesOk(s') && OwnerOk(s', i)
  {
    SubmitSizes(s, b, write, blockno, i0, i1, i2);
    assert OwnerOk(s, i);
  }

  lemma SubmitRings(s: Sys, b: nat, write: bool, blockno: nat, i0: nat, i1: nat, i2: nat)
    requires Inv(s) && CanSubmit(s, b, i0, i1, i2)
    ensures var s' := Submit(s, b, write, blockno, i0, i1, i2); SizesOk(s') && RingsOk(s')
  {
    SubmitSizes(s, b, write, blockno, i0, i1, i2);
    var s' := Submit(s, b, write, blockno, i0, i1, i2);
    forall j: nat | j < |s.posted| ensures s.posted[j] in s.flight { assert PostedOk(s, j); }
    assert OwnerOk(s, i0);
    RoomFor(s, s.posted, i0);
    SlotOf(s.takenN + |s.posted|);
    forall j: nat | j < |s'.posted| ensures PostedOk(s', j) {
      if j < |s.posted| {
        assert PostedOk(s, j);
        SlotsApart(s.takenN, j, |s.posted|);
      }
    }
    forall j: nat | j < |s'.done| ensures DoneOk(s', j) { assert DoneOk(s, j); }
    assert b !in s.posted;
  }

  lemma SubmitInv(s: Sys, b: nat, write: bool, blockno: nat, i0: nat, i1: nat, i2: nat)
    requires Inv(s) && CanSubmit(s, b, i0, i1, i2)
    ensures Inv(Submit(s, b, write, blockno, i0, i1, i2))
  {
    SubmitRings(s, b, write, blockno, i0, i1, i2);
    var s' := Submit(s, b, write, blockno, i0, i1, i2);
    forall x | x in s'.flight ensures ChainOk(s', x) { SubmitChain(s, b, write, blockno, i0, i1, i2, x); }
    forall i: nat | i < NUM ensures OwnerOk(s', i) { SubmitOwner(s, b, write, blockno, i0, i1, i2, i); }
  }

  // ---------------------------------------------------------------- the device takes a request

  function WithPhase(s: Sys, b: nat, phase: Phase): (flight: map<nat, Chain>)
    requires b in s.flight
  {
    s.flight[b := s.flight[b].(phase := phase)]
  }

  predicate CanTake(s: Sys) { |s.posted| > 0 && s.posted[0] in s.flight }

  /** The device reads the next entry of the avail ring. */
  function Take(s: Sys): (s': Sys)
    requires CanTake(s)
  {
    s.(flight := WithPhase(s, s.posted[0], Taken), posted := s.posted[1..], takenN := s.takenN + 1)
  }

  /** What the device finds: the head of a request's chain, and the chain spells out that request. */
  lemma TakeReads(s: Sys, deviceIdx: nat)
    requires Inv(s) && deviceIdx == s.takenN % U16
    ensures deviceIdx != s.q.availIdx <==> |s.posted| > 0
    ensures |s.posted| > 0 ==> && CanTake(s) && var b := s.posted[0];
                               && s.q.availRing[deviceIdx % NUM] == s.flight[b].i0
                               && Decode(s.q, s.flight[b].i0) == Some(Request(b, s.flight[b].write, Sector(s.flight[b].blockno)))
  {
    PostedShort(s);
    IndexDiffers(s.takenN, |s.posted|);
    SlotOf(s.takenN);
    if |s.posted| > 0 {
      assert PostedOk(s, 0);
      assert ChainOk(s, s.posted[0]);
    }
  }

  lemma PostedShort(s: Sys)
    requires Inv(s)
    ensures |s.posted| <= NUM && |s.done| <= NUM
  {
    forall j: nat | j < |s.posted| ensures s.posted[j] in s.flight { assert PostedOk(s, j); }
    forall j: nat | j < |s.done| ensures s.done[j] in s.flight { assert DoneOk(s, j); }
    if |s.posted| > 0 {
      var last := s.posted[|s.posted| - 1];
      assert ChainOk(s, last);
      RoomFor(s, s.posted[..|s.posted| - 1], s.flight[last].i0);
    }
    if |s.done| > 0 {
      var last := s.done[|s.done| - 1];
      assert ChainOk(s, last);
      RoomFor(s, s.done[..|s.done| - 1], s.flight[last].i0);
    }
  }

  lemma TakeChain(s: Sys, x: nat)
    requires Inv(s) && CanTake(s) && x in s.flight
    ensures SizesOk(Take(s)) && ChainOk(Take(s), x)
  {
    assert PostedOk(s, 0);
    assert ChainOk(s, s.posted[0]) && ChainOk(s, x);
    if x != s.posted[0] { Tail(s.posted, x); }
  }

  lemma Tail(s: seq<nat>, x: nat)
    requires |s| > 0 && x != s[0]
    ensures x in s <==> x in s[1..]
  {
    assert s == [s[0]] + s[1..];
  }

  lemma TakePosted(s: Sys, j: nat)
    requires Inv(s) && CanTake(s) && j + 1 < |s.posted|
    ensures SizesOk(Take(s)) && PostedOk(Take(s), j)
  {
    assert PostedOk(s, j + 1);
    assert s.posted[1..][j] == s.posted[j + 1] != s.posted[0];
    assert s.takenN + 1 + j == s.takenN + (j + 1);
  }

  lemma TakeRings(s: Sys)
    requires Inv(s) && CanTake(s)
    ensures SizesOk(Take(s)) && RingsOk(Take(s))
  {
    var s' := Take(s);
    assert PostedOk(s, 0);
    forall j: nat | j < |s'.posted| ensures PostedOk(s', j) { TakePosted(s, j); }
    forall j: nat | j < |s'.done| ensures DoneOk(s', j) { assert DoneOk(s, j); }
  }

  lemma TakeInv(s: Sys)
    requires Inv(s) && CanTake(s)
    ensures Inv(Take(s))
  {
    TakeRings(s);
    var s' := Take(s);
    forall x | x in s'.flight ensures ChainOk(s', x) { TakeChain(s, x); }
    forall i: nat | i < NUM ensures OwnerOk(s', i) { assert OwnerOk(s, i); }
  }

  // ---------------------------------------------------------------- the device completes a request

  predicate CanComplete(s: Sys, b: nat) { SizesOk(s) && b in s.flight && s.flight[b].phase == Taken && s.flight[b].i0 < NUM }

  /** The device writes the status and adds an entry to the used ring. */
  function Complete(s: Sys, b: nat): (s': Sys)
    requires CanComplete(s, b)
  {
    var h := s.flight[b].i0;
    s.(flight := WithPhase(s, b, Done), done := s.done + [b],
       q := s.q.(info := s.q.info[h := s.q.info[h].(status := 0)],
                 usedRing := s.q.usedRing[s.q.usedIdx % NUM := h], usedIdx := (s.q.usedIdx + 1) % U16))
  }

  lemma CompleteRings(s: Sys, b: nat)
    requires Inv(s) && CanComplete(s, b)
    ensures SizesOk(Complete(s, b)) && RingsOk(Complete(s, b))
  {
    var s' := Complete(s, b);
    NextIndex(s.seenN + |s.done|);
    assert s.seenN + |s.done + [b]| == s.seenN + |s.done| + 1;
    forall j: nat | j < |s.done| ensures s.done[j] in s.flight && s.done[j] != b { assert DoneOk(s, j); }
    assert ChainOk(s, b);
    RoomFor(s, s.done, s.flight[b].i0);
    SlotOf(s.seenN + |s.done|);
    forall j: nat | j < |s'.done| ensures DoneOk(s', j) {
      if j < |s.done| {
        assert DoneOk(s, j);
        SlotsApart(s.seenN, j, |s.done|);
      }
    }
    forall j: nat | j < |s'.posted| ensures PostedOk(s', j) { assert PostedOk(s, j); }
  }

  lemma CompleteInv(s: Sys, b: nat)
    requires Inv(s) && CanComplete(s, b)
    ensures Inv(Complete(s, b))
  {
    CompleteRings(s, b);
    var s' := Complete(s, b);
    assert ChainOk(s, b);
    forall x | x in s'.flight ensures ChainOk(s', x) { assert ChainOk(s, x); }
    forall i: nat | i < NUM ensures OwnerOk(s', i) { assert OwnerOk(s, i); }
  }

  // ---------------------------------------------------------------- the interrupt handler

  predicate CanAck(s: Sys) { |s.done| > 0 && s.done[0] in s.flight }

  /** One round of virtio_disk_intr. */
  function Ack(s: Sys): (s': Sys)
    requires CanAck(s)
  {
    s.(flight := WithPhase(s, s.done[0], Acked), done := s.done[1..], seenN := s.seenN + 1,
       q := s.q.(busy := s.q.busy - {s.done[0]}, seenIdx := (s.q.seenIdx + 1) % U16))
  }

  /** What the handler finds: there is an entry exactly when the indices differ; its id heads the chain of a
      request the device has completed, with status 0, and info names that request's buffer. */
  lemma AckReads(s: Sys)
    requires Inv(s)
    ensures s.q.seenIdx != s.q.usedIdx <==> |s.done| > 0
    ensures |s.done| > 0 ==> && CanAck(s) && var id := s.q.usedRing[s.q.seenIdx % NUM];
                             id < NUM && s.q.info[id] == Info(Some(s.done[0]), 0) && s.done[0] in s.q.busy
  {
    PostedShort(s);
    IndexDiffers(s.seenN, |s.done|);
    SlotOf(s.seenN);
    if |s.done| > 0 {
      assert DoneOk(s, 0);
      assert ChainOk(s, s.done[0]);
    }
  }

  lemma AckSizes(s: Sys)
    requires Inv(s) && CanAck(s)
    ensures SizesOk(Ack(s))
  {
    NextIndex(s.seenN);
    assert s.seenN + 1 + |s.done[1..]| == s.seenN + |s.done|;
  }

  lemma AckChain(s: Sys, x: nat)
    requires Inv(s) && CanAck(s) && x in s.flight
    ensures SizesOk(Ack(s)) && ChainOk(Ack(s), x)
  {
    AckSizes(s);
    assert DoneOk(s, 0);
    assert ChainOk(s, s.done[0]) && ChainOk(s, x);
    if x != s.done[0] { Tail(s.done, x); }
  }

  lemma AckDone(s: Sys, j: nat)
    requires Inv(s) && CanAck(s) && j + 1 < |s.done|
    ensures SizesOk(Ack(s)) && DoneOk(Ack(s), j)
  {
    AckSizes(s);
    assert DoneOk(s, j + 1);
    assert s.done[1..][j] == s.done[j + 1] != s.done[0];
    assert s.seenN + 1 + j == s.seenN + (j + 1);
  }

  lemma AckRings(s: Sys)
    requires Inv(s) && CanAck(s)
    ensures SizesOk(Ack(s)) && RingsOk(Ack(s))
  {
    AckSizes(s);
    var s' := Ack(s);
    assert DoneOk(s, 0);
    forall j: nat | j < |s'.done| ensures DoneOk(s', j) { AckDone(s, j); }
    forall j: nat | j < |s'.posted| ensures PostedOk(s', j) { assert PostedOk(s, j); }
  }

  lemma AckInv(s: Sys)
    requires Inv(s) && CanAck(s)
    ensures Inv(Ack(s))
  {
    AckRings(s);
    var s' := Ack(s);
    forall x | x in s'.flight ensures ChainOk(s', x) { AckChain(s, x); }
    forall i: nat | i < NUM ensures OwnerOk(s', i) { assert OwnerOk(s, i); }
  }

  // ---------------------------------------------------------------- virtio_disk_rw returns

  predicate CanFinish(s: Sys, b: nat) {
    && SizesOk(s) && b in s.flight && s.flight[b].phase == Acked
    && s.flight[b].i0 < NUM && s.flight[b].i1 < NUM && s.flight[b].i2 < NUM
  }

  /** The queue after free_chain of i0, i1, i2. */
  function Unchained(q: Queue, i0: nat, i1: nat, i2: nat): (q': Queue)
    requires |q.free| == |q.desc| == NUM && i0 < NUM && i1 < NUM && i2 < NUM
  {
    q.(desc := q.desc[i0 := BLANK][i1 := BLANK][i2 := BLANK], free := q.free[i0 := true][i1 := true][i2 := true])
  }

  /** disk.info[idx[0]].b = 0 and free_chain(idx[0]). */
  function Finish(s: Sys, b: nat): (s': Sys)
    requires CanFinish(s, b)
  {
    var c := s.flight[b];
    s.(flight := s.flight - {b}, owner := s.owner[c.i0 := None][c.i1 := None][c.i2 := None],
       q := Unchained(s.q.(info := s.q.info[c.i0 := s.q.info[c.i0].(buf := None)]), c.i0, c.i1, c.i2))
  }

  lemma FinishChain(s: Sys, b: nat, x: nat)
    requires Inv(s) && CanFinish(s, b) && x in s.flight && x != b
    ensures SizesOk(Finish(s, b)) && ChainOk(Finish(s, b), x)
  {
    assert ChainOk(s, x) && ChainOk(s, b);
  }

  lemma FinishInv(s: Sys, b: nat)
    requires Inv(s) && CanFinish(s, b)
    ensures Inv(Finish(s, b))
  {
    var s' := Finish(s, b);
    assert ChainOk(s, b);
    forall x | x in s'.flight ensures ChainOk(s', x) { FinishChain(s, b, x); }
    forall i: nat | i < NUM ensures OwnerOk(s', i) { FinishOwner(s, b, i); }
    FinishRings(s, b);
  }

  lemma FinishOwner(s: Sys, b: nat, i: nat)
    requires Inv(s) && CanFinish(s, b) && i < NUM
    ensures SizesOk(Finish(s, b)) && OwnerOk(Finish(s, b), i)
  {
    assert OwnerOk(s, i);
    assert ChainOk(s, b);
  }

  lemma FinishRings(s: Sys, b: nat)
    requires Inv(s) && CanFinish(s, b)
    ensures SizesOk(Finish(s, b)) && RingsOk(Finish(s, b))
  {
    var s' := Finish(s, b);
    forall j: nat | j < |s'.posted| ensures PostedOk(s', j) { assert PostedOk(s, j); }
    forall j: nat | j < |s'.done| ensures DoneOk(s', j) { assert DoneOk(s, j); }
  }
}
