/** The binary heap of requests behind IO_type 1 (kernel/virtio_disk.c): slots 1 .. Size of an array of 128,
    ordered by block number, with a sentinel of block 0 in slot 0. */
module MinHeap {
  const SLOTS: nat := 128              // the length of data
  const CAPACITY: nat := 128           // what insertMinHeap compares Size with

  /** A pending request: its block, direction and buffer. */
  datatype Req = Req(blockno: nat, write: bool, buf: nat)

  /** How an insertion ends: a panic at the guard, a first write outside data, never, or none of these. */
  datatype Outcome = Inserted | Panicked | WroteOutside | Endless

  /** The requests of slots 1 .. n. */
  function Contents(s: seq<Req>, n: nat): (c: multiset<Req>)
    requires n < |s|
  {
    multiset(s[1..n + 1])
  }

  predicate InOrder(s: seq<Req>, i: nat)
    requires 1 < i < |s|
  {
    s[i / 2].blockno <= s[i].blockno
  }

  /** Parent before child everywhere below the root. A size of 0 or less is an empty heap. */
  predicate HeapOk(s: seq<Req>, n: int) {
    && |s| == SLOTS && n < SLOTS
    && forall i: nat {:trigger InOrder(s, i)} | 2 <= i <= n :: InOrder(s, i)
  }

  /** The root is the least. */
  lemma {:induction false} RootLeast(s: seq<Req>, n: nat, i: nat)
    requires HeapOk(s, n) && 1 <= i <= n
    ensures s[1].blockno <= s[i].blockno
    decreases i
  {
    if i > 1 {
      assert InOrder(s, i);
      RootLeast(s, n, i / 2);
    }
  }

  function Swap(s: seq<Req>, i: nat, j: nat): (t: seq<Req>)
    requires i < |s| && j < |s|
  {
    s[i := s[j]][j := s[i]]
  }

  lemma SwapContents(s: seq<Req>, n: nat, i: nat, j: nat)
    requires 1 <= i <= n < |s| && 1 <= j <= n
    ensures Contents(Swap(s, i, j), n) == Contents(s, n)
  {
    var a, b := s[1..n + 1], Swap(s, i, j)[1..n + 1];
    assert b == a[i - 1 := a[j - 1]][j - 1 := a[i - 1]];
  }

  /** The children of p come no earlier than block k. */
  predicate NotBelow(s: seq<Req>, n: nat, p: nat, k: nat)
    requires n < |s|
  {
    (2 * p <= n ==> k <= s[2 * p].blockno) && (2 * p + 1 <= n ==> k <= s[2 * p + 1].blockno)
  }

  // ---------------------------------------------------------------- sifting up

  /** In order but for slot p and its parent; and what is below p is not before p's parent. */
  predicate UpOk(s: seq<Req>, n: nat, p: nat) {
    && |s| == SLOTS && 1 <= p <= n < SLOTS
    && (forall i: nat {:trigger InOrder(s, i)} | 2 <= i <= n && i != p :: InOrder(s, i))
    && (p >= 2 ==> NotBelow(s, n, p, s[p / 2].blockno))
  }

  lemma UpStep(s: seq<Req>, n: nat, p: nat)
    requires UpOk(s, n, p) && p >= 2 && s[p / 2].blockno > s[p].blockno
    ensures UpOk(Swap(s, p, p / 2), n, p / 2)
  {
    var q := p / 2;
    var t := Swap(s, p, q);
    forall i: nat | 2 <= i <= n && i != q ensures InOrder(t, i) {
      if i != p { assert InOrder(s, i); }
    }
    if q >= 2 {
      assert InOrder(s, q);
      assert 2 * q != p && 2 * q <= n ==> InOrder(s, 2 * q);
      assert 2 * q + 1 != p && 2 * q + 1 <= n ==> InOrder(s, 2 * q + 1);
    }
  }

  lemma UpDone(s: seq<Req>, n: nat, p: nat)
    requires UpOk(s, n, p) && s[p / 2].blockno <= s[p].blockno
    ensures HeapOk(s, n)
  {
    forall i: nat | 2 <= i <= n ensures InOrder(s, i) { }
  }

  /** A request in the first slot past the heap is out of order with its parent at most. */
  lemma UpStart(s: seq<Req>, n: nat, x: Req)
    requires HeapOk(s, n) && n + 1 < SLOTS
    ensures UpOk(s[n + 1 := x], n + 1, n + 1) && Contents(s[n + 1 := x], n + 1) == Contents(s, n) + multiset{x}
  {
    var t := s[n + 1 := x];
    forall i: nat | 2 <= i <= n + 1 && i != n + 1 ensures InOrder(t, i) { assert InOrder(s, i); }
    assert t[1..n + 2] == s[1..n + 1] + [x];
  }

  // ---------------------------------------------------------------- sifting down

  /** In order but for slot p and its children; and those are not before p's parent. */
  predicate DownOk(s: seq<Req>, n: nat, p: nat) {
    && |s| == SLOTS && 1 <= p < SLOTS && n < SLOTS && (p <= n || n == 0)
    && (forall i: nat {:trigger InOrder(s, i)} | 2 <= i <= n && i / 2 != p :: InOrder(s, i))
    && (p >= 2 ==> NotBelow(s, n, p, s[p / 2].blockno))
  }

  /** c is the child of p with the lesser block number. */
  predicate LesserChild(s: seq<Req>, n: nat, p: nat, c: nat) {
    && |s| == SLOTS && n < SLOTS && p >= 1 && c / 2 == p && c <= n
    && NotBelow(s, n, p, s[c].blockno)
  }

  lemma DownStep(s: seq<Req>, n: nat, p: nat, c: nat)
    requires DownOk(s, n, p) && LesserChild(s, n, p, c) && s[c].blockno <= s[p].blockno
    ensures DownOk(Swap(s, p, c), n, c)
  {
    var t := Swap(s, p, c);
    forall i: nat | 2 <= i <= n && i / 2 != c ensures InOrder(t, i) {
      if i / 2 != p { assert InOrder(s, i); } else { assert i == 2 * p || i == 2 * p + 1; }
    }
    assert 2 * c <= n ==> InOrder(s, 2 * c);
    assert 2 * c + 1 <= n ==> InOrder(s, 2 * c + 1);
  }

  lemma DownDone(s: seq<Req>, n: nat, p: nat)
    requires DownOk(s, n, p) && NotBelow(s, n, p, s[p].blockno)
    ensures HeapOk(s, n)
  {
    forall i: nat | 2 <= i <= n ensures InOrder(s, i) {
      if i / 2 == p { assert i == 2 * p || i == 2 * p + 1; }
    }
  }

  /** The heap without its root, the last request in the root's place. */
  lemma RootReplaced(s: seq<Req>, n: nat)
    requires 1 <= n < |s|
    ensures Contents(s[1 := s[n]], n - 1) == Contents(s, n) - multiset{s[1]}
  {
    var t := s[1 := s[n]];
    if n == 1 {
      assert s[1..2] == [s[1]] && t[1..1] == [];
    } else {
      assert s[1..n + 1] == [s[1]] + s[2..n] + [s[n]];
      assert t[1..n] == [s[n]] + s[2..n];
    }
  }

  lemma DownStart(s: seq<Req>, n: nat)
    requires HeapOk(s, n) && n >= 1
    ensures DownOk(s[1 := s[n]], n - 1, 1) && Contents(s[1 := s[n]], n - 1) == Contents(s, n) - multiset{s[1]}
  {
    var t := s[1 := s[n]];
    forall i: nat | 2 <= i <= n - 1 && i / 2 != 1 ensures InOrder(t, i) { assert InOrder(s, i); }
    RootReplaced(s, n);
  }

  // ---------------------------------------------------------------- the hole that the loops move

  /** Filling the hole at p from q and putting x at q is swapping p and q with x already at p. */
  lemma HoleMoves(s: seq<Req>, x: Req, p: nat, q: nat)
    requires p < |s| && q < |s| && p != q
    ensures s[p := s[q]][q := x] == Swap(s[p := x], p, q)
  {
  }

  /** The hole for x at p moves to its parent q. */
  lemma HoleUp(s: seq<Req>, x: Req, n: nat, p: nat, q: nat)
    requires 2 <= p < |s| && UpOk(s[p := x], n, p) && q == p / 2 && s[q].blockno > x.blockno
    ensures q < |s| && UpOk(s[p := s[q]][q := x], n, q) && Contents(s[p := s[q]][q := x], n) == Contents(s[p := x], n)
  {
    UpStep(s[p := x], n, p);
    SwapContents(s[p := x], n, p, q);
    HoleMoves(s, x, p, q);
  }

  /** The hole for x at p moves to its lesser child c. */
  lemma HoleDown(s: seq<Req>, x: Req, n: nat, p: nat, c: nat)
    requires p < |s| && DownOk(s[p := x], n, p) && LesserChild(s, n, p, c) && s[c].blockno <= x.blockno
    ensures c < |s| && DownOk(s[p := s[c]][c := x], n, c) && Contents(s[p := s[c]][c := x], n) == Contents(s[p := x], n)
  {
    DownStep(s[p := x], n, p, c);
    SwapContents(s[p := x], n, p, c);
    HoleMoves(s, x, p, c);
  }

  /** The hole for x at p is where x belongs. */
  lemma HoleStays(s: seq<Req>, x: Req, n: nat, p: nat)
    requires p < |s| && DownOk(s[p := x], n, p)
    requires 2 * p > n || exists c: nat :: LesserChild(s, n, p, c) && s[c].blockno > x.blockno
    ensures HeapOk(s[p := x], n)
  {
    DownDone(s[p := x], n, p);
  }

  // ---------------------------------------------------------------- when the loop of insertMinHeap ends

  /** The loop that starts at slot p is still running after k rounds: its test has held each time. At slot 0 a round
      changes nothing, and 0 / 2 is 0. */
  predicate StillRunning(s: seq<Req>, p: nat, x: Req, k: nat)
    requires p < |s|
    decreases k
  {
    s[p / 2].blockno > x.blockno && (k == 0 || StillRunning(s[p := s[p / 2]], p / 2, x, k - 1))
  }

  /** The loop never ends. */
  ghost predicate RunsForever(s: seq<Req>, p: nat, x: Req)
    requires p < |s|
  {
    forall k: nat :: StillRunning(s, p, x, k)
  }

  /** Every slot on the way from p to slot 0 holds a later block than x. */
  predicate PathAbove(s: seq<Req>, p: nat, x: Req)
    requires p < |s|
  {
    s[p / 2].blockno > x.blockno && (p / 2 == 0 || PathAbove(s, p / 2, x))
  }

  lemma {:induction false} PathKept(s: seq<Req>, p: nat, x: Req, b: nat, r: Req)
    requires p < b < |s|
    ensures PathAbove(s[b := r], p, x) <==> PathAbove(s, p, x)
  {
    if p / 2 > 0 { PathKept(s, p / 2, x, b, r); }
  }

  lemma {:induction false} PathRuns(s: seq<Req>, p: nat, x: Req, k: nat)
    requires p < |s| && PathAbove(s, p, x)
    ensures StillRunning(s, p, x, k)
    decreases k
  {
    if k > 0 {
      if p == 0 {
        assert s[0 := s[0]] == s;
      } else if p / 2 == 0 {
        assert s[p := s[0]][0] == s[0];
      } else {
        PathKept(s, p / 2, x, p, s[p / 2]);
      }
      PathRuns(s[p := s[p / 2]], p / 2, x, k - 1);
    }
  }

  lemma {:induction false} RunsPath(s: seq<Req>, p: nat, x: Req)
    requires p < |s| && RunsForever(s, p, x)
    ensures PathAbove(s, p, x)
    decreases p
  {
    assert StillRunning(s, p, x, 0);
    if p / 2 > 0 {
      var s' := s[p := s[p / 2]];
      forall k: nat ensures StillRunning(s', p / 2, x, k) { assert StillRunning(s, p, x, k + 1); }
      RunsPath(s', p / 2, x);
      PathKept(s, p / 2, x, p, s[p / 2]);
    }
  }

  /** The condition a caller can check: the sentinel's slot, and the root if there is one, hold a later block. */
  predicate NeverStops(s: seq<Req>, n: int, x: Req)
    requires |s| == SLOTS && n >= -1
  {
    s[0].blockno > x.blockno && (n >= 1 ==> s[1].blockno > x.blockno)
  }

  lemma {:induction false} PathIsAbove(s: seq<Req>, n: nat, p: nat, x: Req)
    requires HeapOk(s, n) && 1 <= p <= n + 1 < SLOTS
    ensures PathAbove(s, p, x) <==> s[0].blockno > x.blockno && (p >= 2 ==> s[1].blockno > x.blockno)
    decreases p
  {
    if p >= 2 {
      PathIsAbove(s, n, p / 2, x);
      RootLeast(s, n, p / 2);
    }
  }

  /** insertMinHeap's loop never ends exactly then. */
  lemma EndlessIff(s: seq<Req>, n: int, x: Req)
    requires HeapOk(s, n) && -1 <= n < SLOTS - 1
    ensures RunsForever(s, n + 1, x) <==> NeverStops(s, n, x)
  {
    var p := n + 1;
    if n >= 0 { PathIsAbove(s, n, p, x); }
    if NeverStops(s, n, x) {
      forall k: nat ensures StillRunning(s, p, x, k) { PathRuns(s, p, x, k); }
    }
    if RunsForever(s, p, x) { RunsPath(s, p, x); }
  }

  // ---------------------------------------------------------------- the heap

  class Heap {
    const data: array<Req>
    var size: int

    /** What both operations keep, whatever the size has become and whatever slot 0 holds. */
    ghost predicate Valid()
      reads this, data
    {
      HeapOk(data[..], size)
    }

    /** The heap part of virtio_disk_init: empty, with the sentinel. */
    constructor ()
      ensures Valid() && size == 0 && data[0].blockno == 0 && fresh(data)
    {
      data := new Req[SLOTS](_ => Req(0, false, 0));
      size := 0;
    }

    /** insertMinHeap, with room in the array. */
    method InsertInside(x: Req) returns (endless: bool)
      requires Valid() && 0 <= size && size + 1 < SLOTS
      modifies `size, data
      ensures size == old(size) + 1 && (endless <==> NeverStops(old(data[..]), old(size), x))
      ensures !endless ==> Valid() && data[0] == old(data[0])
      ensures !endless ==> Contents(data[..], size) == Contents(old(data[..]), old(size)) + multiset{x}
    {
      UpStart(data[..], size, x);
      PathIsAbove(data[..], size, size + 1, x);
      size := size + 1;
      var p := SiftUp(size, x);
      endless := p == 0;
      if !endless { data[p] := x; }
    }

    /** insertMinHeap as it stands, in every state that insertions and deletions lead to. Its guard compares Size with
        128, so it panics only once Size is 128. With 127 requests its first write is to slot 128 of data[128], and
        with Size below -1 to a slot before slot 0. At Size -1, where a deletion from an empty heap leaves it, it
        overwrites slot 0, where the sentinel was, and the request is in no slot of the heap. Once slot 0 holds
        a later block than x, so that nothing stops the loop there, it need not end. */
    method Insert(x: Req) returns (end: Outcome)
      requires data.Length == SLOTS && size <= CAPACITY && (size < SLOTS ==> Valid())
      modifies `size, data
      ensures end == Panicked <==> old(size) == CAPACITY
      ensures end == WroteOutside <==> old(size) == SLOTS - 1 || old(size) < -1
      ensures end == Endless <==> -1 <= old(size) < SLOTS - 1 && NeverStops(old(data[..]), old(size), x)
      ensures size == if end == Panicked then old(size) else old(size) + 1
      ensures end == Panicked || end == WroteOutside ==> data[..] == old(data[..])
      ensures end == Inserted ==> Valid()
      ensures end == Inserted && old(size) >= 0 ==>
                data[0] == old(data[0]) && Contents(data[..], size) == Contents(old(data[..]), old(size)) + multiset{x}
      ensures end == Inserted && old(size) == -1 ==> data[..] == old(data[..])[0 := x]
    {
      if size == CAPACITY { return Panicked; }
      if size + 1 < 0 || size + 1 == data.Length {
        size := size + 1;
        return WroteOutside;
      }
      var endless;
      if size == -1 {
        size := size + 1;
        endless := data[0].blockno > x.blockno;
        if !endless { data[0] := x; }
      } else {
        endless := InsertInside(x);
      }
      return if endless then Endless else Inserted;
    }

    /** Deletions until nothing is pending: every request once, in order of block number. */
    method Drain() returns (tops: seq<Req>)
      requires Valid() && size >= 0
      modifies `size, data
      ensures Valid() && size == 0 && multiset(tops) == Contents(old(data[..]), old(size))
      ensures forall i, j | 0 <= i < j < |tops| :: tops[i].blockno <= tops[j].blockno
    {
      tops := [];
      while size > 0
        invariant Valid() && size >= 0
                  && multiset(tops) + Contents(data[..], size) == Contents(old(data[..]), old(size))
        invariant Sorted(tops, Contents(data[..], size))
      {
        ghost var rest := Contents(data[..], size);
        RootIn(data[..], size);
        MinOfAll(data[..], size);
        OneMore(multiset(tops), rest, data[1]);
        SortedMore(tops, rest, data[1]);
        tops := tops + [data[1]];
        var outside := DeleteMin(data[0]);
      }
      assert data[..][1..1] == [];
    }

    /** The loop of insertMinHeap: where x belongs, with greater requests moved down from it; slot 0 where the loop
        gets there and never ends. */
    method SiftUp(n: nat, x: Req) returns (p: nat)
      requires n < data.Length == SLOTS && UpOk(data[..][n := x], n, n)
      modifies data
      ensures p == 0 <==> PathAbove(old(data[..]), n, x)
      ensures p > 0 ==> p <= n && data[0] == old(data[0]) && HeapOk(data[..][p := x], n)
      ensures p > 0 ==> Contents(data[..][p := x], n) == Contents(old(data[..])[n := x], n)
    {
      ghost var was := data[..];
      p := n;
      while p > 0 && data[p / 2].blockno > x.blockno
        invariant p <= n && data[0] == was[0]
        invariant p > 0 ==> (PathAbove(was, n, x) <==> PathAbove(data[..], p, x))
        invariant p > 0 ==> UpOk(data[..][p := x], n, p)
        invariant p > 0 ==> Contents(data[..][p := x], n) == Contents(was[n := x], n)
        invariant p == 0 ==> PathAbove(was, n, x)
        decreases p
      {
        if p >= 2 {
          HoleUp(data[..], x, n, p, p / 2);
          PathKept(data[..], p / 2, x, p, data[p / 2]);
        }
        data[p] := data[p / 2];
        p := p / 2;
      }
      if p > 0 { UpDone(data[..][p := x], n, p); }
    }

    /** deleteFromMinHeap, whatever the size has become. From a heap with a request in it, it takes the root, which has
        the least block number. From an empty one it leaves Size at -1 and slot 0 copied to slot 1; below that it reads
        outside the array, and before is what it finds there. */
    method DeleteMin(before: Req) returns (outside: bool)
      requires Valid()
      modifies `size, data
      ensures Valid() && size == old(size) - 1 && data[0] == old(data[0]) && (outside <==> old(size) < 0)
      ensures old(size) >= 1 ==>
                Contents(data[..], size) == Contents(old(data[..]), old(size)) - multiset{old(data[1])}
      ensures old(size) >= 1 ==> forall r | r in Contents(old(data[..]), old(size)) :: old(data[1]).blockno <= r.blockno
      ensures old(size) <= 0 ==> data[..] == old(data[..])[1 := if outside then before else old(data[0])]
    {
      outside := size < 0;
      var last := if outside then before else data[size];
      size := size - 1;
      if size < 0 {
        data[1] := last;
        return;
      }
      MinOfAll(data[..], size + 1);
      DownStart(data[..], size + 1);
      var parent := SiftDown(size, last);
      data[parent] := last;
    }

    /** The child of parent with the lesser block number. */
    method PickChild(n: nat, parent: nat) returns (child: nat)
      requires data.Length == SLOTS && 1 <= parent && parent * 2 <= n < SLOTS
      ensures LesserChild(data[..], n, parent, child)
    {
      child := parent * 2;
      if child != n && data[child].blockno > data[child + 1].blockno {
        child := child + 1;
      }
    }

    /** The loop of deleteFromMinHeap: where last belongs, with lesser requests moved up. */
    method SiftDown(n: nat, last: Req) returns (parent: nat)
      requires data.Length == SLOTS && DownOk(data[..][1 := last], n, 1)
      modifies data
      ensures 1 <= parent < SLOTS && data[0] == old(data[0]) && HeapOk(data[..][parent := last], n)
      ensures Contents(data[..][parent := last], n) == Contents(old(data[..])[1 := last], n)
    {
      parent := 1;
      while parent * 2 <= n
        invariant 1 <= parent < SLOTS && data[0] == old(data[0]) && DownOk(data[..][parent := last], n, parent)
        invariant Contents(data[..][parent := last], n) == Contents(old(data[..])[1 := last], n)
        decreases n - parent
      {
        var child := PickChild(n, parent);
        if data[child].blockno > last.blockno {
          break;
        }
        HoleDown(data[..], last, n, parent, child);
        data[parent] := data[child];
        parent := child;
      }
      HoleStays(data[..], last, n, parent);
    }
  }

  lemma MinOfAll(s: seq<Req>, n: nat)
    requires HeapOk(s, n) && n >= 1
    ensures forall r | r in Contents(s, n) :: s[1].blockno <= r.blockno
  {
    forall r | r in Contents(s, n) ensures s[1].blockno <= r.blockno {
      var i :| 0 <= i < |s[1..n + 1]| && s[1..n + 1][i] == r;
      RootLeast(s, n, i + 1);
    }
  }

  // ---------------------------------------------------------------- what follows

  /** tops is sorted by block number and nothing in rest comes before it. */
  predicate Sorted(tops: seq<Req>, rest: multiset<Req>) {
    && (forall i, j | 0 <= i < j < |tops| :: tops[i].blockno <= tops[j].blockno)
    && (forall i, r | 0 <= i < |tops| && r in rest :: tops[i].blockno <= r.blockno)
  }

  lemma SortedMore(tops: seq<Req>, rest: multiset<Req>, t: Req)
    requires Sorted(tops, rest) && t in rest && forall r | r in rest :: t.blockno <= r.blockno
    ensures Sorted(tops + [t], rest - multiset{t})
  {
  }

  lemma OneMore(a: multiset<Req>, b: multiset<Req>, t: Req)
    requires t in b
    ensures (a + multiset{t}) + (b - multiset{t}) == a + b
  {
  }

  lemma RootIn(s: seq<Req>, n: nat)
    requires 1 <= n < |s|
    ensures s[1] in Contents(s, n)
  {
    assert s[1..n + 1][0] == s[1];
  }

  /** The guard does not keep the array: 127 insertions into a new heap all succeed, and the next one writes
      outside. */
  method GuardFails(x: Req) returns (h: Heap, end: Outcome)
    ensures fresh(h) && h.size == SLOTS && end == WroteOutside
  {
    h := new Heap();
    while h.size < SLOTS - 1
      invariant fresh(h) && fresh(h.data) && h.Valid() && 0 <= h.size && h.data[0].blockno == 0
      decreases SLOTS - h.size
    {
      end := h.Insert(x);
    }
    end := h.Insert(x);
  }

  /** A deletion from an empty heap and two insertions: the first takes the sentinel's place, and the second never ends
      exactly when it is for an earlier block. */
  method SentinelLost(x: Req, y: Req) returns (h: Heap, end: Outcome)
    ensures fresh(h) && h.data.Length == SLOTS && end == if x.blockno > y.blockno then Endless else Inserted
    ensures end == Inserted ==> h.Valid() && h.size == 1 && h.data[0] == x && h.data[1] == y
  {
    h := new Heap();
    var outside := h.DeleteMin(x);
    end := h.Insert(x);
    end := h.Insert(y);
    if end == Inserted { OneRequest(h.data[..], y); }
  }

  lemma OneRequest(s: seq<Req>, y: Req)
    requires |s| == SLOTS && Contents(s, 1) == multiset{y}
    ensures s[1] == y
  {
    assert s[1..2] == [s[1]];
    assert s[1] in Contents(s, 1);
  }

  /** Two deletions from an empty heap, the second reading outside the array, and an insertion, which writes there. */
  method BeforeTheArray(before: Req, x: Req) returns (h: Heap, end: Outcome)
    ensures fresh(h) && h.size == -1 && end == WroteOutside
  {
    h := new Heap();
    var outside := h.DeleteMin(before);
    outside := h.DeleteMin(before);
    assert outside;
    end := h.Insert(x);
  }
}
