/** The virtio disk driver in its own form (kernel/virtio_disk.c): descriptors allocated and freed in place, the
    two halves of virtio_disk_rw around its sleep, and the interrupt handler's loop. */
module VirtioDisk {
  import opened Options
  import opened Collections
  import opened VirtioModel
  import opened VirtioSteps
  import opened VirtioRuns

  /** free0 with the descriptors of idx taken. */
  predicate Holding(free0: seq<bool>, free: seq<bool>, idx: seq<nat>) {
    && |free| == |free0| && (forall k: nat | k < |free0| :: free[k] == (free0[k] && k !in idx))
    && (forall j | 0 <= j < |idx| :: idx[j] < |free0| && free0[idx[j]]) && Distinct(idx)
  }

  /** Descriptors that are free are blank. */
  predicate FreeBlank(free: seq<bool>, desc: seq<Desc>) {
    |free| == |desc| == NUM && forall k: nat | k < NUM && free[k] :: desc[k] == BLANK
  }

  /** What virtio_disk_rw relies on when it wakes: the chain is intact and its descriptors are taken. */
  lemma FinishReady(s: Sys, b: nat, c: Chain)
    requires Inv(s) && b in s.flight && b !in s.q.busy && c == s.flight[b]
    ensures CanFinish(s, b) && Inv(Finish(s, b))
    ensures c.i0 < NUM && c.i1 < NUM && c.i2 < NUM && c.i0 != c.i1 && c.i1 != c.i2 && c.i0 != c.i2
    ensures Formatted(s.q, b, c) && !s.q.free[c.i0] && !s.q.free[c.i1] && !s.q.free[c.i2]
  {
    assert ChainOk(s, b);
    assert OwnerOk(s, c.i0) && OwnerOk(s, c.i1) && OwnerOk(s, c.i2);
    FinishInv(s, b);
  }

  /** Fewer than three descriptors are free. */
  ghost predicate TooFew(free: seq<bool>) {
    exists few: seq<nat> :: |few| < 3 && Holding(free, seq(NUM, _ => false), few)
  }

  /** No descriptor is free. */
  predicate Exhausted(free: seq<bool>) {
    forall k: nat | k < |free| :: !free[k]
  }

  class Disk {
    var free: seq<bool>
    var desc: seq<Desc>
    var ops: seq<Op>
    var info: seq<Info>
    var availRing: seq<nat>
    var availIdx: nat
    var usedRing: seq<nat>               // written by the device
    var usedIdx: nat                     // written by the device
    var seenIdx: nat                     // disk.used_idx
    var busy: set<nat>                   // buffers with b->disk == 1
    ghost var flight: map<nat, Chain>
    ghost var owner: seq<Option<nat>>
    ghost var posted: seq<nat>
    ghost var done: seq<nat>
    ghost var takenN: nat
    ghost var seenN: nat

    function Memory(): (q: Queue)
      reads this
    {
      Queue(free, desc, ops, info, availRing, availIdx, usedRing, usedIdx, seenIdx, busy)
    }

    ghost function State(): (s: Sys)
      reads this
    {
      Sys(Memory(), flight, owner, posted, done, takenN, seenN)
    }

    /** virtio_disk_init, the queue part. */
    constructor ()
      ensures State() == Start(0, 0) && Inv(State())
    {
      free, desc, ops, info := seq(NUM, _ => true), seq(NUM, _ => BLANK), seq(NUM, _ => Op(false, 0)), seq(NUM, _ => Info(None, 0));
      availRing, availIdx, usedRing, usedIdx, seenIdx, busy := seq(NUM, _ => 0), 0, seq(NUM, _ => 0), 0, 0, {};
      flight, owner, posted, done, takenN, seenN := map[], seq(NUM, _ => None), [], [], 0, 0;
      new;
      StartInv(0, 0);
      var s := Start(0, 0);
      assert free == s.q.free && desc == s.q.desc && ops == s.q.ops && info == s.q.info;
      assert availRing == s.q.availRing && usedRing == s.q.usedRing && owner == s.owner;
    }

    /** alloc_desc: the lowest free descriptor, no longer free; -1 when there is none. */
    method AllocDesc() returns (i: int)
      requires |free| == NUM
      modifies `free
      ensures i == -1 ==> free == old(free) && Exhausted(free)
      ensures i != -1 ==> 0 <= i < NUM && old(free)[i] && free == old(free)[i := false]
      ensures i != -1 ==> forall k | 0 <= k < i :: !old(free)[k]
    {
      for n := 0 to NUM
        invariant free == old(free) && forall k | 0 <= k < n :: !free[k]
      {
        if free[n] {
          free := free[n := false];
          return n;
        }
      }
      return -1;
    }

    /** free_desc. It panics exactly when the descriptor is out of range or free already; otherwise that descriptor
        is free and blank, and free descriptors stay blank. */
    method FreeDesc(i: nat) returns (ok: bool)
      requires |free| == |desc| == NUM
      modifies `free, `desc
      ensures ok <==> i < NUM && !old(free)[i]
      ensures !ok ==> free == old(free) && desc == old(desc)
      ensures ok ==> free == old(free)[i := true] && desc == old(desc)[i := BLANK]
      ensures FreeBlank(old(free), old(desc)) ==> FreeBlank(free, desc)
    {
      ok := i < NUM && !free[i];
      if !ok { return; }
      desc := desc[i := BLANK];
      free := free[i := true];
    }

    /** The descriptors of idx go back, in order. */
    method GiveBack(idx: seq<nat>, ghost free0: seq<bool>)
      requires FreeBlank(free0, desc) && Holding(free0, free, idx)
      modifies `free, `desc
      ensures free == free0 && desc == old(desc)
    {
      for j := 0 to |idx|
        invariant desc == old(desc) && |free| == NUM
        invariant forall k: nat | k < NUM :: free[k] == (free0[k] && k !in idx[j..])
      {
        assert free0[idx[j]] && desc[idx[j]] == BLANK;
        assert idx[j..] == [idx[j]] + idx[j + 1..];
        assert idx[j] !in idx[j + 1..];
        var ok := FreeDesc(idx[j]);
        assert ok;
        assert desc == old(desc);
      }
    }

    /** alloc3_desc: three descriptors that were free, or, where fewer than three were, nothing changed at all. */
    method Alloc3Desc() returns (idx: seq<nat>)
      requires FreeBlank(free, desc)
      modifies `free, `desc
      ensures |idx| == 3 || idx == []
      ensures |idx| == 3 ==> Holding(old(free), free, idx) && desc == old(desc)
      ensures idx == [] ==> free == old(free) && desc == old(desc)
      ensures idx == [] ==> TooFew(old(free))
    {
      idx := [];
      for i := 0 to 3
        invariant |idx| == i && Holding(old(free), free, idx) && desc == old(desc)
      {
        var d := AllocDesc();
        if d < 0 {
          assert free == seq(NUM, _ => false);
          assert |idx| < 3 && Holding(old(free), seq(NUM, _ => false), idx);
          GiveBack(idx, old(free));
          return [];
        }
        idx := idx + [d];
      }
    }

    /** The first half of virtio_disk_rw: descriptors allocated, the request formatted and posted. False, with
        nothing changed, where it has to sleep for descriptors first. */
    method SubmitRequest(b: nat, write: bool, blockno: nat) returns (idx: seq<nat>)
      requires Inv(State()) && b !in flight
      modifies this
      ensures Inv(State()) && (idx == [] || |idx| == 3)
      ensures idx == [] ==> State() == old(State()) && TooFew(free)
      ensures |idx| == 3 ==> && CanSubmit(old(State()), b, idx[0], idx[1], idx[2])
                             && State() == Submit(old(State()), b, write, blockno, idx[0], idx[1], idx[2])
    {
      AllBlank(State());
      idx := Alloc3Desc();
      if idx == [] { return; }
      HeldAre(old(free), free, idx);
      Post(b, write, blockno, idx[0], idx[1], idx[2], old(State()));
      SubmitInv(old(State()), b, write, blockno, idx[0], idx[1], idx[2]);
    }

    /** The rest of it, with the descriptors in hand. */
    method Post(b: nat, write: bool, blockno: nat, i0: nat, i1: nat, i2: nat, ghost s: Sys)
      requires Inv(s) && CanSubmit(s, b, i0, i1, i2) && State() == s.(q := s.q.(free := Claimed(s.q.free, i0, i1, i2)))
      modifies this
      ensures State() == Submit(s, b, write, blockno, i0, i1, i2)
    {
      Format(b, write, blockno, i0, i1, i2);
      flight := flight[b := Chain(i0, i1, i2, write, blockno, Posted)];
      owner := owner[i0 := Some(b)][i1 := Some(b)][i2 := Some(b)];
      posted := posted + [b];
    }

    /** Formats the three descriptors and puts the chain in the avail ring. */
    method Format(b: nat, write: bool, blockno: nat, i0: nat, i1: nat, i2: nat)
      requires |free| == |desc| == |ops| == |info| == |availRing| == NUM && i0 < NUM && i1 < NUM && i2 < NUM
      modifies `ops, `desc, `info, `busy, `availRing, `availIdx
      ensures Memory() == Posting(old(Memory()), b, write, blockno, i0, i1, i2)
    {
      ops := ops[i0 := Op(write, Sector(blockno))];
      desc := desc[i0 := Desc(Header(i0), 16, true, false, i1)];
      desc := desc[i1 := Desc(Buffer(b), 1024, true, !write, i2)];
      desc := desc[i2 := Desc(Status(i0), 1, false, true, 0)];
      busy := busy + {b};
      info := info[i0 := Info(Some(b), 0xff)];
      availRing := availRing[availIdx % NUM := i0];
      availIdx := (availIdx + 1) % U16;
    }

    /** free_chain from the head of chain c: exactly its three descriptors, without a panic. */
    method FreeChain(i: nat, ghost b: nat, ghost c: Chain)
      requires |free| == |desc| == |ops| == NUM && i == c.i0 < NUM && c.i1 < NUM && c.i2 < NUM
      requires c.i0 != c.i1 && c.i1 != c.i2 && c.i0 != c.i2 && Formatted(Memory(), b, c)
      requires !free[c.i0] && !free[c.i1] && !free[c.i2]
      modifies `free, `desc
      ensures Memory() == Unchained(old(Memory()), c.i0, c.i1, c.i2)
    {
      var n := i;
      ghost var k := 0;
      while true
        invariant 0 <= k <= 2 && n == [c.i0, c.i1, c.i2][k] && |free| == |desc| == NUM
        invariant k == 0 ==> free == old(free) && desc == old(desc)
        invariant k == 1 ==> free == old(free)[c.i0 := true] && desc == old(desc)[c.i0 := BLANK]
        invariant k == 2 ==> free == old(free)[c.i0 := true][c.i1 := true] && desc == old(desc)[c.i0 := BLANK][c.i1 := BLANK]
        decreases 2 - k
      {
        var flag, nxt := desc[n].hasNext, desc[n].next;
        var ok := FreeDesc(n);
        assert ok;
        if flag {
          n := nxt;
        } else {
          break;
        }
        k := k + 1;
      }
    }

    /** The second half of virtio_disk_rw, once b->disk is 0: the request's descriptors are free again. */
    method FinishRequest(b: nat, i0: nat)
      requires Inv(State()) && b in flight && b !in busy && i0 == flight[b].i0
      modifies this
      ensures CanFinish(old(State()), b) && State() == Finish(old(State()), b)
      ensures Inv(State())
    {
      ghost var c := flight[b];
      FinishReady(State(), b, c);
      info := info[i0 := Info(None, info[i0].status)];
      FreeChain(i0, b, c);
      flight, owner := flight - {b}, owner[c.i0 := None][c.i1 := None][c.i2 := None];
    }

    /** One round of the interrupt handler. A status other than 0 is a panic. */
    method AckOne()
      requires Inv(State()) && seenIdx != usedIdx
      modifies `busy, `seenIdx, `flight, `done, `seenN
      ensures Inv(State()) && CanAck(old(State())) && State() == Ack(old(State()))
    {
      AckReads(State());
      AckInv(State());
      var id := usedRing[seenIdx % NUM];
      assert info[id].status == 0;
      var b := info[id].buf.value;
      busy := busy - {b};
      seenIdx := (seenIdx + 1) % U16;
      flight, done, seenN := WithPhase(old(State()), b, Acked), done[1..], seenN + 1;
    }

    /** virtio_disk_intr: every request the device has completed is acknowledged, and no other. */
    method Interrupt()
      requires Inv(State())
      modifies `busy, `seenIdx, `flight, `done, `seenN
      ensures Inv(State()) && done == [] && seenIdx == usedIdx
      ensures flight.Keys == old(flight).Keys && busy == old(busy) - Elements(old(done))
    {
      AckReads(State());
      while seenIdx != usedIdx
        invariant Inv(State()) && (seenIdx != usedIdx <==> |done| > 0)
        invariant flight.Keys == old(flight).Keys && busy - Elements(done) == old(busy) - Elements(old(done))
        decreases |done|
      {
        ghost var first := done;
        AckOne();
        AckReads(State());
        assert Elements(first) == Elements(first[1..]) + {first[0]};
      }
    }
  }

  lemma AllBlank(s: Sys)
    requires Inv(s)
    ensures FreeBlank(s.q.free, s.q.desc)
  {
    forall k: nat | k < NUM && s.q.free[k] ensures s.q.desc[k] == BLANK { assert OwnerOk(s, k); }
  }

  lemma HeldAre(free0: seq<bool>, free: seq<bool>, idx: seq<nat>)
    requires Holding(free0, free, idx) && |idx| == 3 && |free0| == NUM
    ensures idx[0] < NUM && idx[1] < NUM && idx[2] < NUM && idx[0] != idx[1] && idx[1] != idx[2] && idx[0] != idx[2]
    ensures free0[idx[0]] && free0[idx[1]] && free0[idx[2]] && free == Claimed(free0, idx[0], idx[1], idx[2])
  {
  }
}
