/** What adding pages to an address space promises (uvmalloc, uvmcopy and their rollback, kernel/vm.c), as values. */
module VmGrow {
  import opened Options
  import opened Collections
  import opened PageTableModel
  import opened Kalloc
  import opened Vm

  const USER_FLAGS: nat := 31    // PTE_W | PTE_X | PTE_R | PTE_U | PTE_V

  /** The physical pages behind a .. a + k. */
  ghost function DataPages(s: Space, a: nat, k: nat): (r: set<nat>) {
    if k == 0 then {} else DataPages(s, a, k - 1) + {PhysOf(s, a + k - 1)}
  }

  lemma {:induction false} PoolPushed(s: Space, a: nat, k: nat)
    ensures Pool(Pushed(s, a, k)) == Pool(s.fl) + DataPages(s, a, k)
  {
    if k > 0 {
      PoolPushed(s, a, k - 1);
      PoolPush(Pushed(s, a, k - 1), PhysOf(s, a + k - 1));
    }
  }

  lemma {:induction false} DataSame(s: Space, s': Space, a: nat, k: nat)
    requires forall n: nat | a <= n < a + k :: PhysOf(s', n) == PhysOf(s, n)
    ensures DataPages(s', a, k) == DataPages(s, a, k)
  {
    if k > 0 { DataSame(s, s', a, k - 1); }
  }

  /** What new pages hold: zeros (uvmalloc), or a copy of another address space with its flags (uvmcopy). */
  datatype Fill = Zeros | CopyOf(flat: map<nat, Pte>, page: map<nat, Bytes>) {
    function Flags(n: nat): (f: nat) {
      if Zeros? then USER_FLAGS else if n in flat then flat[n].flags else PTE_V
    }

    function Content(n: nat): (b: Bytes) {
      if CopyOf? && n in flat && flat[n].ppn in page then page[flat[n].ppn] else Filled(0)
    }
  }

  /** Page n is mapped with the flags and contents wanted. */
  ghost predicate FilledPage(s: Space, n: nat, w: Fill) {
    && n in s.flat && s.flat[n].flags == w.Flags(n)
    && PhysOf(s, n) in s.page && s.page[PhysOf(s, n)] == w.Content(n)
  }

  /** Outside a .. a + k the translations of s and s' agree. */
  ghost predicate SameOutside(s: Space, s': Space, a: nat, k: nat) {
    s'.root == s.root && forall n: nat | !(a <= n < a + k) :: s'.At(n) == s.At(n)
  }

  /** The pages of s are still all there: free, tables, or mapped in a .. a + k. */
  ghost predicate Conserved(s: Space, s': Space, a: nat, k: nat) {
    && Pool(s'.fl) + s'.m.Keys + DataPages(s', a, k) == Pool(s.fl) + s.m.Keys
    && Pool(s'.fl) <= Pool(s.fl) && s.m.Keys <= s'.m.Keys
    && PagesKept(s.page, s.fl, s'.page)
  }

  /** From s to s' the pages a .. a + k were added filled as w says, each with a page of its own. */
  ghost predicate GrowDone(s: Space, s': Space, lo: nat, hi: nat, a: nat, k: nat, w: Fill) {
    && SameOutside(s, s', a, k) && Conserved(s, s', a, k)
    && Freeable(s', lo, hi, a, k)
    && (forall n: nat | a <= n < a + k :: FilledPage(s', n, w))
  }

  lemma GrowNothing(s: Space, lo: nat, hi: nat, a: nat, w: Fill)
    ensures GrowDone(s, s, lo, hi, a, 0, w)
  {
  }

  /** s1 is s with its first free page taken and given contents b. */
  ghost predicate TookPage(s: Space, s1: Space, p: nat, b: Bytes) {
    |s.fl| > 0 && p == s.fl[0] && s1 == s.(fl := s.fl[1..], page := s.page[p := b])
  }

  /** The taken page p was free, and is now neither free nor a table. */
  ghost predicate NewPage(s: Space, s1: Space, p: nat) {
    && p in s.fl && p !in s1.fl && p !in s1.m && Pool(s.fl) == Pool(s1.fl) + {p}
    && PagesKept(s.page, s.fl, s1.page)
  }

  lemma TakenIsNew(s: Space, s1: Space, lo: nat, hi: nat, p: nat, b: Bytes)
    requires SpaceOk(s, lo, hi) && TookPage(s, s1, p, b) && Distinct(s.fl) && lo <= p < hi
    ensures NewPage(s, s1, p)
  {
    PoolPop(s.fl);
    assert p in s.fl;
  }

  /** Mapping the taken page: what was there stays, page a + k is new. */
  lemma GrownPhys(s: Space, s1: Space, s2: Space, p: nat, a: nat, k: nat, n: nat, w: Fill)
    requires TookPage(s, s1, p, w.Content(a + k)) && MapDone(s1, s2, a + k, 1, p, w.Flags(a + k))
    ensures s2.At(n) == if n == a + k then Some(Pte(p, w.Flags(a + k))) else s.At(n)
    ensures PhysOf(s2, n) == if n == a + k then p else PhysOf(s, n)
  {
    assert s2.At(n) == if n == a + k then Some(Pte(p, w.Flags(a + k))) else s1.At(n);
  }

  lemma ExtendedPool(m: Tables, pos: map<nat, Pos>, fl: seq<nat>, m': Tables, pos': map<nat, Pos>, fl': seq<nat>)
    requires Extended(m, pos, fl, m', pos', fl')
    ensures Pool(fl') + m'.Keys == Pool(fl) + m.Keys && Pool(fl') <= Pool(fl) && m.Keys <= m'.Keys
  {
    var c := |fl| - |fl'|;
    assert fl == fl[..c] + fl[c..];
    assert Pool(fl) == Pool(fl[..c]) + Pool(fl[c..]);
  }

  /** A page that is neither free nor a table stays so while tables are added. */
  lemma StillFreeable(s1: Space, s2: Space, lo: nat, hi: nat, q: nat)
    requires Extended(s1.m, s1.pos, s1.fl, s2.m, s2.pos, s2.fl) && q !in s1.fl && q !in s1.m
    ensures q !in s2.fl && q !in s2.m
  {
    ExtendedPool(s1.m, s1.pos, s1.fl, s2.m, s2.pos, s2.fl);
    assert q !in Pool(s1.fl) + s1.m.Keys;
    assert q !in Pool(s2.fl) + s2.m.Keys;
  }

  lemma GrowPage(s: Space, s1: Space, s2: Space, lo: nat, hi: nat, p: nat, a: nat, k: nat, n: nat, w: Fill)
    requires TookPage(s, s1, p, w.Content(a + k)) && NewPage(s, s1, p) && lo <= p < hi
    requires MapDone(s1, s2, a + k, 1, p, w.Flags(a + k)) && p in s.page
    requires a <= n <= a + k && (n < a + k ==> FreeablePage(s, lo, hi, n) && FilledPage(s, n, w))
    ensures FreeablePage(s2, lo, hi, n) && FilledPage(s2, n, w)
  {
    GrownPhys(s, s1, s2, p, a, k, n, w);
    var q := PhysOf(s2, n);
    assert q !in s1.fl && q !in s1.m && q in s1.page && s1.page[q] == w.Content(n);
    StillFreeable(s1, s2, lo, hi, q);
  }

  lemma GrowInjective(s: Space, s1: Space, s2: Space, lo: nat, hi: nat, p: nat, a: nat, k: nat, w: Fill)
    requires TookPage(s, s1, p, w.Content(a + k)) && MapDone(s1, s2, a + k, 1, p, w.Flags(a + k)) && p in s.fl
    requires Freeable(s, lo, hi, a, k)
    ensures Injective(s2, a, k + 1)
  {
    forall n, n' | a <= n < n' < a + k + 1
      ensures PhysOf(s2, n) != PhysOf(s2, n')
    {
      GrownPhys(s, s1, s2, p, a, k, n, w);
      GrownPhys(s, s1, s2, p, a, k, n', w);
      assert FreeablePage(s, lo, hi, n);
      assert n' < a + k ==> PhysOf(s, n) != PhysOf(s, n');
    }
  }

  lemma GrowConserved(s0: Space, s: Space, s1: Space, s2: Space, p: nat, a: nat, k: nat, w: Fill)
    requires TookPage(s, s1, p, w.Content(a + k)) && NewPage(s, s1, p)
    requires MapDone(s1, s2, a + k, 1, p, w.Flags(a + k)) && Conserved(s0, s, a, k)
    ensures Conserved(s0, s2, a, k + 1)
  {
    ExtendedPool(s1.m, s1.pos, s1.fl, s2.m, s2.pos, s2.fl);
    forall n: nat | a <= n < a + k + 1 ensures PhysOf(s2, n) == if n == a + k then p else PhysOf(s, n) {
      GrownPhys(s, s1, s2, p, a, k, n, w);
    }
    DataSame(s, s2, a, k);
    KeptThrough(s0.page, s0.fl, s.page, s.fl, s2.page, s1.page, s1.fl);
  }

  lemma KeptThrough(page0: map<nat, Bytes>, fl0: seq<nat>, page: map<nat, Bytes>, fl: seq<nat>, page2: map<nat, Bytes>,
                    page1: map<nat, Bytes>, fl1: seq<nat>)
    requires PagesKept(page0, fl0, page) && PagesKept(page, fl, page1) && PagesKept(page1, fl1, page2)
    requires Pool(fl) <= Pool(fl0) && Pool(fl1) <= Pool(fl)
    ensures PagesKept(page0, fl0, page2)
  {
    forall p | p in page0 && p !in fl0
      ensures p in page2 && page2[p] == page0[p]
    {
      assert p !in Pool(fl0) && p !in Pool(fl) && p !in Pool(fl1);
    }
  }

  /** One more page: taken from the free list, cleared and mapped. */
  lemma GrowOneMore(s0: Space, s: Space, s1: Space, s2: Space, lo: nat, hi: nat, p: nat, a: nat, k: nat, w: Fill)
    requires SpaceOk(s, lo, hi) && TookPage(s, s1, p, w.Content(a + k)) && Distinct(s.fl) && lo <= p < hi && p in s.page
    requires MapDone(s1, s2, a + k, 1, p, w.Flags(a + k)) && GrowDone(s0, s, lo, hi, a, k, w)
    ensures GrowDone(s0, s2, lo, hi, a, k + 1, w)
  {
    TakenIsNew(s, s1, lo, hi, p, w.Content(a + k));
    GrowConserved(s0, s, s1, s2, p, a, k, w);
    GrowInjective(s, s1, s2, lo, hi, p, a, k, w);
    forall n: nat | a <= n < a + k + 1
      ensures FreeablePage(s2, lo, hi, n) && FilledPage(s2, n, w)
    {
      GrowPage(s, s1, s2, lo, hi, p, a, k, n, w);
    }
    forall n: nat | !(a <= n < a + k + 1)
      ensures s2.At(n) == s0.At(n)
    {
      GrownPhys(s, s1, s2, p, a, k, n, w);
      assert s.At(n) == s0.At(n);
    }
  }

  /** mappages failed after page p was taken; p goes back on the list. */
  ghost predicate BackedOut(s: Space, s1: Space, s2: Space, s3: Space, p: nat, at: nat, w: Fill) {
    && TookPage(s, s1, p, w.Content(at)) && MapDone(s1, s2, at, 0, p, w.Flags(at))
    && s3 == s2.(fl := [p] + s2.fl, page := s2.page[p := Filled(1)])
  }

  /** Every translation and every data page is as it was; only page-table pages may have been added. */
  ghost predicate Restored(s: Space, s': Space) {
    && s'.root == s.root && s'.flat == s.flat
    && Pool(s'.fl) + s'.m.Keys == Pool(s.fl) + s.m.Keys && Pool(s'.fl) <= Pool(s.fl) && s.m.Keys <= s'.m.Keys
    && PagesKept(s.page, s.fl, s'.page)
  }

  lemma BackOutFlat(s1: Space, s2: Space, at: nat, p: nat, f: nat)
    requires MapDone(s1, s2, at, 0, p, f)
    ensures s2.root == s1.root && s2.flat == s1.flat
  {
    forall n: nat ensures s2.At(n) == s1.At(n) { }
    SameFlat(s2.flat, s1.flat, s2, s1);
  }

  /** Putting the taken page back leaves at most new table pages behind. */
  lemma BackOutRestores(s: Space, s1: Space, s2: Space, s3: Space, p: nat, at: nat, w: Fill)
    requires BackedOut(s, s1, s2, s3, p, at, w) && NewPage(s, s1, p)
    ensures Restored(s, s3)
  {
    BackOutFlat(s1, s2, at, p, w.Flags(at));
    ExtendedPool(s1.m, s1.pos, s1.fl, s2.m, s2.pos, s2.fl);
    PoolPush(s2.fl, p);
  }

  lemma RestoredPage(s: Space, s': Space, lo: nat, hi: nat, n: nat, w: Fill)
    requires Restored(s, s') && FreeablePage(s, lo, hi, n) && FilledPage(s, n, w)
    ensures PhysOf(s', n) == PhysOf(s, n) && FreeablePage(s', lo, hi, n) && FilledPage(s', n, w)
  {
    assert PhysOf(s, n) !in Pool(s.fl) + s.m.Keys;
    assert PhysOf(s, n) !in Pool(s'.fl) + s'.m.Keys;
  }

  lemma RestoredConserves(s0: Space, s: Space, s': Space, a: nat, k: nat)
    requires Conserved(s0, s, a, k) && Restored(s, s')
    ensures Conserved(s0, s', a, k)
  {
    DataSame(s, s', a, k);
    KeptThrough(s0.page, s0.fl, s.page, s.fl, s'.page, s.page, s.fl);
  }

  /** A round that failed and put its page back leaves the growth as it was. */
  lemma GrowBackOut(s0: Space, s: Space, s': Space, lo: nat, hi: nat, a: nat, k: nat, w: Fill)
    requires GrowDone(s0, s, lo, hi, a, k, w) && Restored(s, s')
    ensures GrowDone(s0, s', lo, hi, a, k, w)
  {
    RestoredConserves(s0, s, s', a, k);
    forall n: nat | !(a <= n < a + k) ensures s'.At(n) == s0.At(n) {
      assert s.At(n) == s0.At(n);
    }
    forall n: nat | a <= n < a + k
      ensures FreeablePage(s', lo, hi, n) && FilledPage(s', n, w)
    {
      RestoredPage(s, s', lo, hi, n, w);
    }
    forall n, n' | a <= n < n' < a + k ensures PhysOf(s', n) != PhysOf(s', n') {
      assert PhysOf(s, n) != PhysOf(s, n');
    }
  }

  /** Unmapping and freeing what was added restores every translation and every data page. */
  lemma GrowUndone(s0: Space, s: Space, s': Space, lo: nat, hi: nat, a: nat, k: nat, w: Fill)
    requires GrowDone(s0, s, lo, hi, a, k, w) && UnmapDone(s, s', a, k, true)
    requires forall n: nat | a <= n < a + k :: n !in s0.flat
    ensures Restored(s0, s')
  {
    PoolPushed(s, a, k);
    UndonePool(s0, s, s', lo, hi, a, k, w);
    forall n: nat
      ensures s'.At(n) == s0.At(n)
    {
      assert s'.At(n) == if a <= n < a + k then None else s.At(n);
      assert !(a <= n < a + k) ==> s.At(n) == s0.At(n);
    }
    SameFlat(s'.flat, s0.flat, s', s0);
    forall p | p in s0.page && p !in s0.fl
      ensures p in s'.page && s'.page[p] == s0.page[p]
    {
      assert p !in Pool(s0.fl);
      NotData(s0, s, lo, hi, a, k, p, w);
    }
  }

  lemma UndonePool(s0: Space, s: Space, s': Space, lo: nat, hi: nat, a: nat, k: nat, w: Fill)
    requires GrowDone(s0, s, lo, hi, a, k, w) && UnmapDone(s, s', a, k, true)
    ensures Pool(s'.fl) + s'.m.Keys == Pool(s0.fl) + s0.m.Keys && Pool(s'.fl) <= Pool(s0.fl) && s0.m.Keys <= s'.m.Keys
  {
    PoolPushed(s, a, k);
    forall p | p in Pool(s'.fl) ensures p in Pool(s0.fl) {
      if p !in s0.fl { NotData(s0, s, lo, hi, a, k, p, w); }
    }
  }

  /** The data pages added all came from the free list. */
  lemma NotData(s0: Space, s: Space, lo: nat, hi: nat, a: nat, k: nat, p: nat, w: Fill)
    requires GrowDone(s0, s, lo, hi, a, k, w) && p !in s0.fl
    ensures p !in Pushed(s, a, k)
  {
    PoolPushed(s, a, k);
    DataNotTables(s, lo, hi, a, k);
    assert p !in Pool(s0.fl);
    assert p in DataPages(s, a, k) ==> p in s0.m.Keys && p in s.m.Keys;
    assert p !in Pool(Pushed(s, a, k));
  }

  lemma {:induction false} DataNotTables(s: Space, lo: nat, hi: nat, a: nat, k: nat)
    requires forall n: nat | a <= n < a + k :: FreeablePage(s, lo, hi, n)
    ensures DataPages(s, a, k) !! s.m.Keys
  {
    if k > 0 {
      DataNotTables(s, lo, hi, a, k - 1);
      assert FreeablePage(s, lo, hi, a + k - 1);
    }
  }

  lemma SameFlat(f: map<nat, Pte>, f': map<nat, Pte>, s: Space, s': Space)
    requires f == s.flat && f' == s'.flat && forall n: nat :: s.At(n) == s'.At(n)
    ensures f == f'
  {
    forall n | n in f
      ensures n in f' && f'[n] == f[n]
    {
      assert s.At(n) == s'.At(n);
    }
    forall n | n in f'
      ensures n in f
    {
      assert s.At(n) == s'.At(n);
    }
  }

  // ---------------------------------------------------------------- running out

  /** n data pages and the page-table pages that s' has more than s take up every page that was free in s. */
  ghost predicate OutOfPages(s: Space, s': Space, n: nat) {
    |s.fl| + |s.m| <= |s'.m| + n
  }

  lemma {:induction false} DataAtMost(s: Space, a: nat, k: nat)
    ensures |DataPages(s, a, k)| <= k
  {
    if k > 0 { DataAtMost(s, a, k - 1); }
  }

  lemma {:induction false} PoolAtMost(fl: seq<nat>)
    ensures |Pool(fl)| <= |fl|
  {
    if fl == [] {
      assert Pool(fl) == {};
    } else {
      PoolAtMost(fl[1..]);
      assert fl == [fl[0]] + fl[1..];
      assert Pool(fl) == Pool(fl[1..]) + {fl[0]};
    }
  }

  /** Growing by k pages leaves at least all but k of the pages that were free or tables. */
  lemma GrowCount(s0: Space, s: Space, lo: nat, hi: nat, a: nat, k: nat)
    requires SpaceOk(s0, lo, hi) && Distinct(s0.fl) && Conserved(s0, s, a, k)
    ensures |s0.fl| + |s0.m| <= |s.fl| + |s.m| + k
  {
    PoolSize(s0.fl);
    PoolAtMost(s.fl);
    DataAtMost(s, a, k);
    assert Pool(s0.fl) !! s0.m.Keys;
    assert |Pool(s0.fl) + s0.m.Keys| == |s0.fl| + |s0.m|;
    assert |Pool(s.fl) + s.m.Keys + DataPages(s, a, k)| <= |Pool(s.fl)| + |s.m.Keys| + |DataPages(s, a, k)|;
  }

  lemma TablesTook(m: Tables, fl: seq<nat>, m': Tables)
    requires Distinct(fl) && m'.Keys == m.Keys + Pool(fl) && forall p | p in m :: p !in fl
    ensures |m'| == |m| + |fl|
  {
    PoolSize(fl);
    assert m.Keys !! Pool(fl);
    assert |m'| == |m'.Keys| && |m| == |m.Keys|;
  }

  /** Where a page was taken and mapping it used up the rest, the rest became tables. */
  lemma TablesTookAll(s: Space, s1: Space, s2: Space, lo: nat, hi: nat, p: nat, b: Bytes)
    requires SpaceOk(s, lo, hi) && Distinct(s.fl) && TookPage(s, s1, p, b)
    requires Extended(s1.m, s1.pos, s1.fl, s2.m, s2.pos, s2.fl) && s2.fl == []
    ensures |s.fl| + |s.m| == |s2.m| + 1
  {
    PoolPop(s.fl);
    assert s1.fl[..|s1.fl|] == s1.fl;
    TablesTook(s1.m, s1.fl, s2.m);
  }

  /** A round that fails after k pages. */
  lemma RoundOutOfPages(s0: Space, s: Space, s': Space, lo: nat, hi: nat, a: nat, k: nat)
    requires SpaceOk(s0, lo, hi) && Distinct(s0.fl) && Conserved(s0, s, a, k) && OutOfPages(s, s', 1)
    ensures OutOfPages(s0, s', k + 1)
  {
    GrowCount(s0, s, lo, hi, a, k);
  }
}
