/** growproc (kernel/proc.c), and any run of resizes of an address space: no page is lost and none is freed twice,
    whatever else is mapped above the process's size. */
module GrowProc {
  import opened Options
  import opened PageTableModel
  import opened Kalloc
  import opened Vm
  import opened VmGrow
  import opened UserVm
  import opened VmFree

  const WORD32: nat := 0x1_0000_0000

  /** What is mapped at page n of the pages above a process's memory. */
  function AboveAt(above: map<nat, Pte>, n: nat): (e: Option<Pte>) {
    if n in above then Some(above[n]) else None
  }

  /** The first count pages are mapped, each to a page of its own that may be freed; besides them exactly the pages
      of above are mapped, and as it says. */
  ghost predicate Occupied(s: Space, lo: nat, hi: nat, count: nat, above: map<nat, Pte>) {
    && AllLeaves(s, 0, count) && Freeable(s, lo, hi, 0, count)
    && (forall n | n in above :: n >= count)
    && (forall n: nat | n >= count :: s.At(n) == AboveAt(above, n))
  }

  /** The memory of a process of size sz, the page tables and the free list together are the pages of all. */
  ghost predicate Accounted(s: Space, lo: nat, hi: nat, sz: nat, above: map<nat, Pte>, all: set<nat>) {
    Occupied(s, lo, hi, Pages(sz), above) && Pool(s.fl) + DataPages(s, 0, Pages(sz)) + s.m.Keys == all
  }

  /** A process can grow to sz without meeting a page of above. */
  ghost predicate RoomTo(above: map<nat, Pte>, sz: nat) {
    forall n | n in above :: Pages(sz) <= n
  }

  lemma OccupiedAlone(s: Space, lo: nat, hi: nat, count: nat)
    ensures Occupied(s, lo, hi, count, map[]) <==> Disposable(s, lo, hi, count)
  {
    if Disposable(s, lo, hi, count) {
      forall n: nat | n >= count ensures s.At(n) == AboveAt(map[], n) { assert n !in s.flat; }
    }
    if Occupied(s, lo, hi, count, map[]) {
      forall n | n in s.flat ensures n < count { assert n >= count ==> s.At(n) == AboveAt(map[], n); }
    }
  }

  lemma {:induction false} DataSplit(s: Space, a: nat, k: nat)
    ensures DataPages(s, 0, a + k) == DataPages(s, 0, a) + DataPages(s, a, k)
  {
    if k > 0 { DataSplit(s, a, k - 1); }
  }

  lemma {:induction false} InData(s: Space, a: nat, k: nat, n: nat)
    requires a <= n < a + k
    ensures PhysOf(s, n) in DataPages(s, a, k)
  {
    if n < a + k - 1 { InData(s, a, k - 1, n); }
  }

  // ---------------------------------------------------------------- growing

  /** A page that was mapped before the growth. */
  lemma OldPageKept(s: Space, s': Space, lo: nat, hi: nat, a: nat, k: nat, n: nat)
    requires SameOutside(s, s', a, k) && Conserved(s, s', a, k) && n < a && Leaf(s, n) && FreeablePage(s, lo, hi, n)
    ensures Leaf(s', n) && PhysOf(s', n) == PhysOf(s, n) && FreeablePage(s', lo, hi, n)
    ensures PhysOf(s', n) !in DataPages(s', a, k)
  {
    assert s'.At(n) == s.At(n);
    assert PhysOf(s, n) !in Pool(s.fl) + s.m.Keys;
    assert PhysOf(s, n) !in Pool(s'.fl) + s'.m.Keys + DataPages(s', a, k);
  }

  lemma GrownInjective(s: Space, s': Space, lo: nat, hi: nat, a: nat, k: nat)
    requires SameOutside(s, s', a, k) && Conserved(s, s', a, k) && AllLeaves(s, 0, a) && Freeable(s, lo, hi, 0, a)
    requires Injective(s', a, k)
    ensures Injective(s', 0, a + k)
  {
    forall n: nat, n': nat | n < n' < a + k
      ensures PhysOf(s', n) != PhysOf(s', n')
    {
      if n < a {
        assert Leaf(s, n) && FreeablePage(s, lo, hi, n);
        OldPageKept(s, s', lo, hi, a, k, n);
        if n' < a {
          assert Leaf(s, n') && FreeablePage(s, lo, hi, n');
          OldPageKept(s, s', lo, hi, a, k, n');
        } else {
          InData(s', a, k, n');
        }
      }
    }
  }

  lemma GrownOccupied(s: Space, s': Space, lo: nat, hi: nat, a: nat, k: nat, above: map<nat, Pte>)
    requires Occupied(s, lo, hi, a, above) && GrowDone(s, s', lo, hi, a, k, Zeros)
             && forall n | n in above :: n >= a + k
    ensures Occupied(s', lo, hi, a + k, above)
  {
    ZeroLeaves(a, a + k);
    GrownLeaves(s, s', lo, hi, a, k, Zeros, a + k);
    GrownInjective(s, s', lo, hi, a, k);
    forall n: nat | n < a + k
      ensures Leaf(s', n) && FreeablePage(s', lo, hi, n)
    {
      if n < a {
        assert Leaf(s, n) && FreeablePage(s, lo, hi, n);
        OldPageKept(s, s', lo, hi, a, k, n);
      }
    }
    forall n: nat | n >= a + k
      ensures s'.At(n) == AboveAt(above, n)
    {
      assert s'.At(n) == s.At(n);
    }
  }

  lemma OldDataKept(s: Space, s': Space, a: nat, k: nat)
    requires SameOutside(s, s', a, k)
    ensures DataPages(s', 0, a) == DataPages(s, 0, a)
  {
    forall n: nat | 0 <= n < a
      ensures PhysOf(s', n) == PhysOf(s, n)
    {
      assert s'.At(n) == s.At(n);
    }
    DataSame(s, s', 0, a);
  }

  /** uvmalloc that succeeds takes its pages from the free list. */
  lemma GrowthAccounted(s: Space, s': Space, lo: nat, hi: nat, sz: nat, newsz: nat, above: map<nat, Pte>, all: set<nat>)
    requires Accounted(s, lo, hi, sz, above, all) && Grew(s, s', lo, hi, sz, newsz) && RoomTo(above, newsz)
    ensures Accounted(s', lo, hi, newsz, above, all)
  {
    var a, k := Pages(sz), Pages(newsz) - Pages(sz);
    assert a + k == Pages(newsz);
    GrownOccupied(s, s', lo, hi, a, k, above);
    DataSplit(s', a, k);
    OldDataKept(s, s', a, k);
  }

  /** uvmalloc that fails leaves the address space as it was, with at most more tables. */
  lemma FailureAccounted(s: Space, s': Space, lo: nat, hi: nat, sz: nat, above: map<nat, Pte>, all: set<nat>)
    requires Accounted(s, lo, hi, sz, above, all) && Restored(s, s')
    ensures Accounted(s', lo, hi, sz, above, all)
  {
    var c := Pages(sz);
    DataSame(s, s', 0, c);
    forall n: nat | n < c
      ensures Leaf(s', n) && FreeablePage(s', lo, hi, n) && PhysOf(s', n) == PhysOf(s, n)
    {
      assert Leaf(s, n) && FreeablePage(s, lo, hi, n);
      assert PhysOf(s, n) !in Pool(s.fl) + s.m.Keys;
      assert PhysOf(s, n) !in Pool(s'.fl) + s'.m.Keys;
    }
    forall n: nat | n >= c ensures s'.At(n) == AboveAt(above, n) { assert s'.At(n) == s.At(n); }
  }

  // ---------------------------------------------------------------- shrinking

  lemma LowPageKept(s: Space, s': Space, lo: nat, hi: nat, a: nat, k: nat, n: nat)
    requires AllLeaves(s, 0, a + k) && Freeable(s, lo, hi, 0, a + k) && UnmapDone(s, s', a, k, true) && n < a
    ensures Leaf(s', n) && PhysOf(s', n) == PhysOf(s, n) && FreeablePage(s', lo, hi, n)
  {
    assert s'.At(n) == s.At(n) && Leaf(s, n) && FreeablePage(s, lo, hi, n);
    PushedHolds(s, a, k, PhysOf(s, n));
  }

  lemma ShrunkOccupied(s: Space, s': Space, lo: nat, hi: nat, a: nat, k: nat, above: map<nat, Pte>)
    requires Occupied(s, lo, hi, a + k, above) && UnmapDone(s, s', a, k, true)
    ensures Occupied(s', lo, hi, a, above)
  {
    forall n: nat | n < a
      ensures Leaf(s', n) && FreeablePage(s', lo, hi, n) && PhysOf(s', n) == PhysOf(s, n)
    {
      LowPageKept(s, s', lo, hi, a, k, n);
    }
    forall n: nat | n >= a
      ensures s'.At(n) == AboveAt(above, n)
    {
      assert s'.At(n) == if a <= n < a + k then None else s.At(n);
    }
  }

  lemma ShrunkPool(s: Space, s': Space, a: nat, k: nat)
    requires UnmapDone(s, s', a, k, true)
    ensures Pool(s'.fl) + DataPages(s', 0, a) == Pool(s.fl) + DataPages(s, 0, a + k)
  {
    PoolPushed(s, a, k);
    DataSplit(s, a, k);
    forall n: nat | n < a
      ensures PhysOf(s', n) == PhysOf(s, n)
    {
      assert s'.At(n) == s.At(n);
    }
    DataSame(s, s', 0, a);
  }

  /** uvmdealloc puts the pages above the new size on the free list. */
  lemma ShrinkAccounted(s: Space, s': Space, lo: nat, hi: nat, sz: nat, newsz: nat, above: map<nat, Pte>, all: set<nat>)
    requires Accounted(s, lo, hi, sz, above, all) && Pages(newsz) <= Pages(sz)
    requires UnmapDone(s, s', Pages(newsz), Pages(sz) - Pages(newsz), true)
    ensures Accounted(s', lo, hi, newsz, above, all)
  {
    var a, k := Pages(newsz), Pages(sz) - Pages(newsz);
    assert a + k == Pages(sz);
    ShrunkOccupied(s, s', lo, hi, a, k, above);
    ShrunkPool(s, s', a, k);
  }

  // ---------------------------------------------------------------- growproc

  /** The size growproc asks for: 32-bit arithmetic. */
  function Asked(sz: nat, n: int): (want: nat)
    ensures want < WORD32
  {
    (sz + n) % WORD32
  }

  lemma NothingInTheWay(s: Space, lo: nat, hi: nat, a: nat, b: nat, above: map<nat, Pte>)
    requires Occupied(s, lo, hi, a, above) && forall n | n in above :: b <= n
    ensures Unmapped(s, a, b)
  {
    forall n: nat | a <= n < b ensures n !in s.flat { assert s.At(n) == AboveAt(above, n); }
  }

  method Grow(pt: PageTable, sz: nat, want: nat, ghost above: map<nat, Pte>, ghost all: set<nat>) returns (got: nat)
    requires pt.Valid() && want <= MAXVA && RoomTo(above, want)
             && Accounted(pt.State(), pt.kmem.lo, pt.kmem.hi, sz, above, all)
    modifies pt`tables, pt`pos, pt`flat, pt.kmem
    ensures pt.Valid() && Accounted(pt.State(), pt.kmem.lo, pt.kmem.hi, if got == 0 then sz else got, above, all)
    ensures if want < sz then got == sz else got == want || (got == 0 && CouldNotGrow(old(pt.State()), pt.State(), sz, want))
  {
    ghost var ok;
    NothingInTheWay(pt.State(), pt.kmem.lo, pt.kmem.hi, Pages(sz), Pages(want), above);
    got, ok := UvmAlloc(pt, sz, want);
    if want >= sz {
      if ok {
        GrowthAccounted(old(pt.State()), pt.State(), pt.kmem.lo, pt.kmem.hi, sz, want, above, all);
      } else {
        FailureAccounted(old(pt.State()), pt.State(), pt.kmem.lo, pt.kmem.hi, sz, above, all);
      }
    }
  }

  method Shrink(pt: PageTable, sz: nat, want: nat, ghost above: map<nat, Pte>, ghost all: set<nat>) returns (got: nat)
    requires pt.Valid() && sz <= MAXVA && Accounted(pt.State(), pt.kmem.lo, pt.kmem.hi, sz, above, all)
    modifies pt`tables, pt`pos, pt`flat, pt.kmem
    ensures pt.Valid() && Accounted(pt.State(), pt.kmem.lo, pt.kmem.hi, got, above, all)
    ensures got == if want < sz then want else sz
  {
    if want < sz {
      PagesMonotone(want, sz);
      PagesMonotone(sz, MAXVA);
    }
    got := UvmDealloc(pt, sz, want);
    if want < sz {
      ShrinkAccounted(old(pt.State()), pt.State(), pt.kmem.lo, pt.kmem.hi, sz, want, above, all);
    }
  }

  /** uvmalloc or uvmdealloc, whichever the new size calls for; the size kept is the old one if memory ran out. */
  method Resize(pt: PageTable, sz: nat, want: nat, ghost above: map<nat, Pte>, ghost all: set<nat>) returns (sz': nat)
    requires pt.Valid() && sz <= MAXVA && want <= MAXVA && RoomTo(above, want)
             && Accounted(pt.State(), pt.kmem.lo, pt.kmem.hi, sz, above, all)
    modifies pt`tables, pt`pos, pt`flat, pt.kmem
    ensures pt.Valid() && sz' <= MAXVA && Accounted(pt.State(), pt.kmem.lo, pt.kmem.hi, sz', above, all)
    ensures sz' == want || (sz' == sz < want && CouldNotGrow(old(pt.State()), pt.State(), sz, want))
  {
    if want <= sz {
      sz' := Shrink(pt, sz, want, above, all);
    } else {
      sz' := Grow(pt, sz, want, above, all);
      if sz' == 0 { sz' := sz; }
    }
  }

  predicate IsInt(n: int) { -0x8000_0000 <= n < 0x8000_0000 }

  /** Where the sum of a size and an int leaves 32 bits, growproc finds the size it is asked for on the wrong side of
      the size there is. */
  lemma AskedIs(sz: nat, n: int)
    requires sz < WORD32 && IsInt(n)
    ensures 0 <= sz + n < WORD32 ==> Asked(sz, n) == sz + n
    ensures sz + n >= WORD32 ==> Asked(sz, n) < sz
    ensures sz + n < 0 ==> Asked(sz, n) > sz
  {
  }

  /** growproc: whatever it is asked and however it ends, every page is accounted for under the size it leaves, and
      what is mapped above is as it was. It leaves the size asked for, or the old one where that does not fit 32 bits;
      it fails only where there were not pages enough to grow. A process's two pages at the top of the address space
      leave it room. */
  method Growproc(pt: PageTable, sz: nat, n: int, ghost above: map<nat, Pte>, ghost all: set<nat>)
    returns (ok: bool, sz': nat)
    requires pt.Valid() && sz < WORD32 && RoomTo(above, WORD32) && IsInt(n)
             && Accounted(pt.State(), pt.kmem.lo, pt.kmem.hi, sz, above, all)
    modifies pt`tables, pt`pos, pt`flat, pt.kmem
    ensures pt.Valid() && sz' < WORD32 && Accounted(pt.State(), pt.kmem.lo, pt.kmem.hi, sz', above, all)
    ensures ok ==> sz' == if 0 <= sz + n < WORD32 then sz + n else sz
    ensures !ok ==> n > 0 && sz' == sz && sz + n < WORD32 && CouldNotGrow(old(pt.State()), pt.State(), sz, sz + n)
  {
    var want := Asked(sz, n);
    AskedIs(sz, n);
    if n > 0 {
      PagesMonotone(want, WORD32);
      var got := Grow(pt, sz, want, above, all);
      if got == 0 { return false, sz; }
      return true, got;
    } else if n < 0 {
      sz' := Shrink(pt, sz, want, above, all);
      return true, sz';
    }
    return true, sz;
  }

  /** The sizes an address space had, from 0: each the one asked for or, where that is more, perhaps the one before. */
  predicate Resized(sizes: seq<nat>, got: seq<nat>) {
    && 1 <= |got| <= |sizes| + 1 && got[0] == 0
    && forall i | 0 <= i < |got| - 1 :: got[i + 1] == sizes[i] || got[i + 1] == got[i] < sizes[i]
  }

  lemma ResizedMore(sizes: seq<nat>, got: seq<nat>, sz: nat)
    requires Resized(sizes, got) && |got| <= |sizes|
    requires var want, last := sizes[|got| - 1], got[|got| - 1]; sz == want || sz == last < want
    ensures Resized(sizes, got + [sz])
  {
  }

  /** Any run of uvmalloc and uvmdealloc calls on a new address space, to whatever sizes, then uvmfree: its
      tables and data pages are all free. */
  method LiveAndFree(pt: PageTable, sizes: seq<nat>) returns (got: seq<nat>)
    requires pt.Valid() && pt.flat == map[] && forall i | 0 <= i < |sizes| :: sizes[i] <= MAXVA
    modifies pt`tables, pt`pos, pt`flat, pt.kmem
    ensures pt.kmem.Valid() && Pool(pt.kmem.freelist) == Pool(old(pt.kmem.freelist)) + old(pt.tables).Keys
    ensures Resized(sizes, got) && |got| == |sizes| + 1
  {
    ghost var all := Pool(pt.kmem.freelist) + pt.tables.Keys;
    OccupiedAlone(pt.State(), pt.kmem.lo, pt.kmem.hi, 0);
    var sz: nat, i := 0, 0;
    got := [0];
    while i < |sizes|
      invariant i <= |sizes| && sz <= MAXVA && pt.Valid()
      invariant |got| == i + 1 && got[i] == sz && Resized(sizes, got)
      invariant Accounted(pt.State(), pt.kmem.lo, pt.kmem.hi, sz, map[], all)
    {
      sz := Resize(pt, sz, sizes[i], map[], all);
      ResizedMore(sizes, got, sz);
      got, i := got + [sz], i + 1;
    }
    OccupiedAlone(pt.State(), pt.kmem.lo, pt.kmem.hi, Pages(sz));
    UvmFree(pt, sz);
  }

  /** uvmcreate, any run of uvmalloc and uvmdealloc and then uvmfree, whether or not memory sufficed: the same
      pages are free as before, each once. */
  method CreateLiveFree(kmem: Kmem, sizes: seq<nat>) returns (got: seq<nat>)
    requires kmem.Valid() && forall i | 0 <= i < |sizes| :: sizes[i] <= MAXVA
    modifies kmem
    ensures kmem.Valid() && Pool(kmem.freelist) == Pool(old(kmem.freelist))
    ensures |kmem.freelist| == |old(kmem.freelist)|
    ensures if kmem.freelist == [] then got == [] else Resized(sizes, got) && |got| == |sizes| + 1
  {
    var page := kmem.Kalloc();
    if page.None? { return []; }
    assert page.value in Pool(old(kmem.freelist)) by { assert old(kmem.freelist)[0] in old(kmem.freelist); }
    var pt := new PageTable(kmem, page.value);
    got := LiveAndFree(pt, sizes);
    PoolSize(old(kmem.freelist));
    PoolSize(kmem.freelist);
  }
}
