/** The shortest-seek-time-first queue of requests behind IO_type 2 (kernel/virtio_disk.c): data[0] is the request
    being served, and data[1] is kept a nearest pending one. */
module SstfQueue {
  import opened MinHeap

  const U32: int := 0x1_0000_0000
  const HALF: int := 0x8000_0000

  // ---------------------------------------------------------------- distance

  /** A uint expression stored in an int. */
  function ToInt(x: int): (r: int)
    ensures -HALF <= r < HALF
  {
    if x % U32 < HALF then x % U32 else x % U32 - U32
  }

  /** distance: the difference of two uint block numbers as an int, negated if negative; the one value whose
      negation does not fit stays as it is. */
  function Distance(x: Req, y: Req): (d: int) {
    var delta := ToInt(x.blockno - y.blockno);
    if delta >= 0 then delta else ToInt(-delta)
  }

  function Gap(x: Req, y: Req): (d: nat) {
    if x.blockno >= y.blockno then x.blockno - y.blockno else y.blockno - x.blockno
  }

  /** distance is the distance exactly when the blocks are less than 2^31 apart. */
  lemma DistanceIsGap(x: Req, y: Req)
    requires x.blockno < U32 && y.blockno < U32
    ensures Distance(x, y) == Gap(x, y) <==> Gap(x, y) < HALF
  {
  }

  /** In particular for all blocks below 2^31; not for blocks 0 and 2^32 - 1, which it takes for neighbours. */
  lemma DistanceWraps()
    ensures Distance(Req(0, false, 0), Req(0xffff_ffff, false, 0)) == 1
  {
  }

  // ---------------------------------------------------------------- the queue as a sequence

  predicate Small(s: seq<Req>) {
    forall r | r in s :: r.blockno < HALF
  }

  /** The second request is as near to the first as any other. */
  predicate NearestSecond(s: seq<Req>) {
    |s| >= 2 ==> forall r | r in s[1..] :: Gap(s[0], s[1]) <= Gap(s[0], r)
  }

  /** s with the requests at i and j exchanged. */
  lemma SwapKeeps(s: seq<Req>, i: nat, j: nat)
    requires 1 <= i < |s| && 1 <= j < |s|
    ensures multiset(Swap(s, i, j)) == multiset(s) && Swap(s, i, j)[0] == s[0]
  {
  }

  predicate Nearer(s: seq<Req>, k: nat)
    requires |s| >= 2 && k < |s|
  {
    Distance(s[0], s[1]) <= Distance(s[0], s[k])
  }

  /** The second request is as near to the first as those before i. */
  predicate BestSoFar(s: seq<Req>, i: nat) {
    |s| >= 2 ==> i <= |s| && forall k: nat {:trigger Nearer(s, k)} | 1 <= k < i :: Nearer(s, k)
  }

  lemma KeepBest(s: seq<Req>, i: nat)
    requires 1 <= i < |s| && BestSoFar(s, i) && Distance(s[0], s[i]) >= Distance(s[0], s[1])
    ensures BestSoFar(s, i + 1)
  {
    forall k: nat | 1 <= k < i + 1 ensures Nearer(s, k) { }
  }

  lemma SwapBest(s: seq<Req>, i: nat)
    requires 1 <= i < |s| && BestSoFar(s, i) && Distance(s[0], s[i]) < Distance(s[0], s[1])
    ensures BestSoFar(Swap(s, i, 1), i + 1)
  {
    var t := Swap(s, i, 1);
    forall k: nat | 1 <= k < i + 1 ensures Nearer(t, k) {
      if k < i { assert Nearer(s, k); }
    }
  }

  lemma NearestFrom(s: seq<Req>, i: nat)
    requires Small(s) && BestSoFar(s, i) && |s| <= i
    ensures NearestSecond(s)
  {
    if |s| >= 2 {
      forall r | r in s[1..] ensures Gap(s[0], s[1]) <= Gap(s[0], r) {
        var k :| 0 <= k < |s[1..]| && s[1..][k] == r;
        assert Nearer(s, k + 1) && s[k + 1] in s && s[0] in s && s[1] in s;
        DistanceIsGap(s[0], s[1]);
        DistanceIsGap(s[0], r);
      }
    }
  }

  class Queue {
    const data: array<Req>
    var size: int

    /** The pending requests in order. */
    ghost function Items(): (s: seq<Req>)
      reads this, data
    {
      if 0 <= size <= data.Length then data[..size] else []
    }

    ghost predicate Valid()
      reads this, data
    {
      0 <= size <= data.Length == SLOTS && NearestSecond(Items())
    }

    constructor ()
      ensures Valid() && Items() == [] && fresh(data)
    {
      data := new Req[SLOTS](_ => Req(0, false, 0));
      size := 0;
    }

    /** SSTF: the first request stays, and a nearest of the others is brought to the second place. */
    method Sstf()
      requires size <= data.Length
      modifies data
      ensures multiset(Items()) == multiset(old(Items())) && (size > 0 ==> Items()[0] == old(Items())[0])
      ensures Small(old(Items())) ==> NearestSecond(Items())
    {
      ghost var s := Items();
      var i := 1;
      while i < size
        invariant 1 <= i && (i <= size || i == 1) && s == Items() && BestSoFar(s, i)
        invariant multiset(s) == multiset(old(Items())) && (size > 0 ==> s[0] == old(Items())[0])
      {
        if Distance(data[0], data[i]) < Distance(data[0], data[1]) {
          SwapBest(s, i);
          SwapKeeps(s, i, 1);
          var cur := data[i];
          data[i] := data[1];
          data[1] := cur;
          s := Swap(s, i, 1);
        } else {
          KeepBest(s, i);
        }
        i := i + 1;
      }
      SmallKept(old(Items()), s);
      if Small(s) { NearestFrom(s, i); }
    }

    /** enqueue, for every size the queue can come to: a full queue is a panic, and below an empty one, where a dequeue
        from an empty queue leaves it, the request is written before the array. Otherwise it joins the others. */
    method Enqueue(x: Req) returns (end: Outcome)
      requires size <= data.Length == SLOTS
      modifies `size, data
      ensures end != Endless && (end == Panicked <==> old(size) == SLOTS) && (end == WroteOutside <==> old(size) < 0)
      ensures size == if end == Panicked then old(size) else old(size) + 1
      ensures end != Inserted ==> data[..] == old(data[..])
      ensures end == Inserted ==> multiset(Items()) == multiset(old(Items())) + multiset{x}
      ensures end == Inserted && old(size) > 0 ==> Items()[0] == old(Items())[0]
      ensures end == Inserted && Small(old(Items())) && x.blockno < HALF ==> NearestSecond(Items())
    {
      if size == SLOTS { return Panicked; }
      if size < 0 {
        size := size + 1;
        return WroteOutside;
      }
      data[size] := x;
      size := size + 1;
      assert Items() == old(Items()) + [x];
      Sstf();
      return Inserted;
    }

    /** dequeue: the first request leaves, and the second, a nearest one, takes its place. An empty queue, and one below
        that, loses one more from its size. */
    method Dequeue()
      requires size <= data.Length
      modifies `size, data
      ensures size == old(size) - 1
      ensures old(size) > 0 ==> multiset(Items()) == multiset(old(Items())) - multiset{old(Items())[0]}
      ensures old(size) > 1 ==> Items()[0] == old(Items())[1]
      ensures old(size) > 0 && Small(old(Items())) ==> NearestSecond(Items())
      ensures old(size) <= 0 ==> data[..] == old(data[..])
    {
      if size <= 0 {
        size := size - 1;
        return;
      }
      ghost var s := Items();
      ShiftDown();
      size := size - 1;
      FirstAway(s);
      assert size >= 0 ==> Items() == s[1..];
      Sstf();
    }

    /** Serving until nothing is pending: every request once, and after each the nearest of those still pending. */
    method Drain() returns (tour: seq<Req>)
      requires Valid() && Small(Items())
      modifies `size, data
      ensures size == 0 && multiset(tour) == multiset(old(Items()))
      ensures forall k, j | 0 <= k < j < |tour| :: Gap(tour[k], tour[k + 1]) <= Gap(tour[k], tour[j])
    {
      tour := [];
      while size > 0
        invariant Valid() && Small(Items()) && multiset(tour) + multiset(Items()) == multiset(old(Items()))
        invariant Greedy(tour, Items())
        decreases size
      {
        ghost var s, served := Items(), tour;
        tour := tour + [data[0]];
        Dequeue();
        ServedNext(served, s, Items());
        OneServed(served, s, Items());
      }
      assert Items() == [];
      TourIsGreedy(tour);
    }

    /** The loop of dequeue. */
    method ShiftDown()
      requires 0 <= size <= data.Length
      modifies data
      ensures size > 0 ==> data[..size - 1] == old(data[..size])[1..]
    {
      ghost var s := data[..size];
      var i := 0;
      while i < size - 1
        invariant 0 <= i && (i <= size - 1 || i == 0)
        invariant size > 0 ==> data[..i] == s[1..i + 1] && data[i..size] == s[i..]
      {
        assert data[i + 1] == data[i..size][1] == s[i + 1];
        data[i] := data[i + 1];
        assert data[..i + 1] == data[..i] + [s[i + 1]];
        assert data[i + 1..size] == s[i + 1..];
        i := i + 1;
      }
    }
  }

  lemma FirstAway(s: seq<Req>)
    ensures s != [] ==> multiset(s[1..]) == multiset(s) - multiset{s[0]} && (Small(s) ==> Small(s[1..]))
  {
    if s != [] { assert s == [s[0]] + s[1..]; }
  }

  lemma SmallKept(s: seq<Req>, t: seq<Req>)
    requires multiset(s) == multiset(t)
    ensures Small(s) <==> Small(t)
  {
    assert forall r :: r in s <==> r in multiset(s);
    assert forall r :: r in t <==> r in multiset(t);
  }

  // ---------------------------------------------------------------- a whole tour

  /** The request that follows the k-th of tour, with s still pending, is as near to it as any later one. */
  ghost predicate NearestNext(tour: seq<Req>, s: seq<Req>, k: nat)
    requires k < |tour| && k + 1 < |tour| + |s|
  {
    var next := (tour + s)[k + 1];
    && (forall j | k < j < |tour| :: Gap(tour[k], next) <= Gap(tour[k], tour[j]))
    && (forall r | r in s :: Gap(tour[k], next) <= Gap(tour[k], r))
  }

  ghost predicate Greedy(tour: seq<Req>, s: seq<Req>) {
    forall k: nat {:trigger NearestNext(tour, s, k)} | k < |tour| && k + 1 < |tour| + |s| :: NearestNext(tour, s, k)
  }

  /** A dequeue serves the next request of the tour. */
  lemma ServedNext(tour: seq<Req>, s: seq<Req>, s': seq<Req>)
    requires Greedy(tour, s) && |s| > 0 && NearestSecond(s) && |s'| == |s| - 1
    requires multiset(s') == multiset(s) - multiset{s[0]} && (|s| > 1 ==> s'[0] == s[1])
    ensures Greedy(tour + [s[0]], s')
  {
    var n := |tour|;
    FirstAway(s);
    forall r | r in s' ensures r in s[1..] && r in s { assert r in multiset(s'); }
    forall k: nat | k < n + 1 && k + 1 < n + 1 + |s'|
      ensures NearestNext(tour + [s[0]], s', k)
    {
      if k < n { assert NearestNext(tour, s, k); }
    }
  }

  lemma OneServed(tour: seq<Req>, s: seq<Req>, s': seq<Req>)
    requires |s| > 0 && Small(s) && multiset(s') == multiset(s) - multiset{s[0]}
    ensures Small(s') && multiset(tour + [s[0]]) + multiset(s') == multiset(tour) + multiset(s)
  {
    FirstAway(s);
    SmallKept(s[1..], s');
    OneMore(multiset(tour), multiset(s), s[0]);
  }

  lemma TourIsGreedy(tour: seq<Req>)
    requires Greedy(tour, [])
    ensures forall k, j | 0 <= k < j < |tour| :: Gap(tour[k], tour[k + 1]) <= Gap(tour[k], tour[j])
  {
    forall k, j | 0 <= k < j < |tour|
      ensures Gap(tour[k], tour[k + 1]) <= Gap(tour[k], tour[j])
    {
      assert NearestNext(tour, [], k);
    }
  }

  /** A dequeue from an empty queue, then an enqueue: the request is written before the array. */
  method BeforeTheQueue(x: Req) returns (q: Queue, end: Outcome)
    ensures fresh(q) && q.size == 0 && end == WroteOutside
  {
    q := new Queue();
    q.Dequeue();
    end := q.Enqueue(x);
  }
}
