/** Growing, shrinking and copying user address spaces (kernel/vm.c). */
module UserVm {
  import opened Options
  import opened Collections
  import opened Params
  import opened PageTableModel
  import opened Kalloc
  import opened Vm
  import opened VmGrow

  /** PGROUNDUP(sz) / PGSIZE. */
  function Pages(sz: nat): (n: nat) {
    (sz + PGSIZE - 1) / PGSIZE
  }

  /** Page n is below PGROUNDUP(sz) exactly when its first byte is below sz. */
  lemma PagesCover(sz: nat, n: nat)
    ensures n < Pages(sz) <==> n * PGSIZE < sz
  {
  }

  lemma PagesMonotone(x: nat, y: nat)
    requires x <= y
    ensures Pages(x) <= Pages(y) && (y <= MAXVA ==> Pages(y) <= MAXVPN)
  {
  }

  /** No page of a .. b is mapped. */
  ghost predicate Unmapped(s: Space, a: nat, b: nat) {
    forall n: nat | a <= n < b :: n !in s.flat
  }

  /** A page filled as asked will be mapped as a leaf. */
  ghost predicate LeafFlags(w: Fill, a: nat, b: nat) {
    forall n: nat | a <= n < b :: VBit(w.Flags(n)) && w.Flags(n) != PTE_V
  }

  /** What growing a .. b from s0 starts from: no page of it is mapped, and all of it will be leaves. */
  ghost predicate Plan(s0: Space, lo: nat, hi: nat, a: nat, b: nat, w: Fill) {
    SpaceOk(s0, lo, hi) && Distinct(s0.fl) && Unmapped(s0, a, b) && LeafFlags(w, a, b) && b <= MAXVPN
  }

  // ---------------------------------------------------------------- one page

  /** Gives page p the contents b. */
  method WritePage(kmem: Kmem, p: nat, b: Bytes)
    requires kmem.Valid() && kmem.lo <= p < kmem.hi
    modifies kmem`page
    ensures kmem.Valid() && kmem.page == old(kmem.page)[p := b]
  {
    kmem.page := kmem.page[p := b];
  }

  /** kalloc, then memset to zeros or memmove from another page; None when no page is free. */
  method TakePage(pt: PageTable, from: Option<nat>, ghost b: Bytes) returns (mem: Option<nat>)
    requires pt.Valid()
    requires from.None? ==> b == Filled(0)
    requires from.Some? ==> from.value in pt.kmem.page && from.value !in pt.kmem.freelist && pt.kmem.page[from.value] == b
    modifies pt.kmem
    ensures pt.Valid() && Distinct(old(pt.kmem.freelist))
    ensures mem.None? ==> pt.State() == old(pt.State()) && pt.kmem.freelist == []
    ensures mem.Some? ==> && TookPage(old(pt.State()), pt.State(), mem.value, b)
                          && pt.kmem.lo <= mem.value < pt.kmem.hi && mem.value in old(pt.kmem.page)
  {
    mem := pt.kmem.Kalloc();
    if mem.None? { return; }
    WritePage(pt.kmem, mem.value, if from.None? then Filled(0) else pt.kmem.page[from.value]);
    TookIt(old(pt.State()), pt.State(), pt.kmem.lo, pt.kmem.hi, mem.value, b);
  }

  lemma TookIt(s: Space, s1: Space, lo: nat, hi: nat, p: nat, b: Bytes)
    requires SpaceOk(s, lo, hi) && |s.fl| > 0 && Distinct(s.fl) && p == s.fl[0] && lo <= p < hi
    requires s1 == s.(fl := s.fl[1..], page := s.page[p := Filled(5)][p := b])
    ensures TookPage(s, s1, p, b) && SpaceOk(s1, lo, hi)
  {
    assert s.page[p := Filled(5)][p := b] == s.page[p := b];
    assert forall q | q in s.fl[1..] :: q in s.fl;
  }

  /** kfree(mem) after mappages failed for want of pages. */
  method PutBack(pt: PageTable, p: nat, at: nat, ghost s: Space, ghost s1: Space, ghost w: Fill)
    requires pt.Valid() && SpaceOk(s, pt.kmem.lo, pt.kmem.hi) && Distinct(s.fl) && pt.kmem.lo <= p < pt.kmem.hi
    requires TookPage(s, s1, p, w.Content(at)) && MapDone(s1, pt.State(), at, 0, p, w.Flags(at))
             && pt.kmem.freelist == []
    modifies pt.kmem
    ensures pt.Valid() && Restored(s, pt.State()) && OutOfPages(s, pt.State(), 1)
  {
    TablesTookAll(s, s1, pt.State(), pt.kmem.lo, pt.kmem.hi, p, w.Content(at));
    TakenIsNew(s, s1, pt.kmem.lo, pt.kmem.hi, p, w.Content(at));
    StillFreeable(s1, pt.State(), pt.kmem.lo, pt.kmem.hi, p);
    pt.kmem.Kfree(p);
    BackOutRestores(s, s1, old(pt.State()), pt.State(), p, at, w);
  }

  /** mappages of the one page p at page n, and kfree(p) if that fails. */
  method MapOrPutBack(pt: PageTable, n: nat, p: nat, flags: nat, ghost s: Space, ghost w: Fill) returns (ok: bool)
    requires pt.Valid() && n < MAXVPN && n !in pt.flat && pt.kmem.lo <= p < pt.kmem.hi
    requires flags == w.Flags(n) && VBit(flags)
    requires SpaceOk(s, pt.kmem.lo, pt.kmem.hi) && Distinct(s.fl) && TookPage(s, pt.State(), p, w.Content(n))
    modifies pt`tables, pt`pos, pt`flat, pt.kmem
    ensures pt.Valid()
    ensures ok ==> MapDone(old(pt.State()), pt.State(), n, 1, p, flags)
    ensures !ok ==> Restored(s, pt.State()) && OutOfPages(s, pt.State(), 1)
  {
    ghost var j;
    ok, j := pt.MapRange(n, n, p, flags);
    if !ok {
      PutBack(pt, p, n, s, old(pt.State()), w);
    }
  }

  /** The rest of a round: maps the page p just taken, or puts it back. */
  method MapTaken(pt: PageTable, a: nat, k: nat, p: nat, flags: nat, ghost s0: Space, ghost s: Space, ghost w: Fill)
    returns (ok: bool)
    requires pt.Valid() && a + k < MAXVPN && a + k !in pt.flat && pt.kmem.lo <= p < pt.kmem.hi && p in s.page
    requires flags == w.Flags(a + k) && VBit(flags)
    requires SpaceOk(s, pt.kmem.lo, pt.kmem.hi) && Distinct(s.fl) && TookPage(s, pt.State(), p, w.Content(a + k))
    requires GrowDone(s0, s, pt.kmem.lo, pt.kmem.hi, a, k, w)
    modifies pt`tables, pt`pos, pt`flat, pt.kmem
    ensures pt.Valid() && GrowDone(s0, pt.State(), pt.kmem.lo, pt.kmem.hi, a, if ok then k + 1 else k, w)
    ensures !ok ==> OutOfPages(s, pt.State(), 1)
  {
    ghost var s1 := pt.State();
    ok := MapOrPutBack(pt, a + k, p, flags, s, w);
    if ok {
      GrowOneMore(s0, s, s1, pt.State(), pt.kmem.lo, pt.kmem.hi, p, a, k, w);
    } else {
      GrowBackOut(s0, s, pt.State(), pt.kmem.lo, pt.kmem.hi, a, k, w);
    }
  }

  /** One round of uvmalloc or uvmcopy: page a + k. Where it fails it has put back the page it took. */
  method GrowOne(pt: PageTable, a: nat, k: nat, from: Option<nat>, flags: nat, ghost s0: Space, ghost b: nat,
                 ghost w: Fill)
    returns (ok: bool)
    requires pt.Valid() && a + k < b && GrowDone(s0, pt.State(), pt.kmem.lo, pt.kmem.hi, a, k, w)
    requires Plan(s0, pt.kmem.lo, pt.kmem.hi, a, b, w) && flags == w.Flags(a + k)
    requires from.None? ==> w.Content(a + k) == Filled(0)
    requires from.Some? ==> && from.value in pt.kmem.page && from.value !in pt.kmem.freelist
                            && pt.kmem.page[from.value] == w.Content(a + k)
    modifies pt`tables, pt`pos, pt`flat, pt.kmem
    ensures pt.Valid() && GrowDone(s0, pt.State(), pt.kmem.lo, pt.kmem.hi, a, if ok then k + 1 else k, w)
    ensures !ok ==> OutOfPages(s0, pt.State(), k + 1)
  {
    ghost var s := pt.State();
    GrowUnmapped(s0, s, pt.kmem.lo, pt.kmem.hi, a, k, w);
    var mem := TakePage(pt, from, w.Content(a + k));
    if mem.None? {
      GrowCount(s0, s, pt.kmem.lo, pt.kmem.hi, a, k);
      return false;
    }
    ok := MapTaken(pt, a, k, mem.value, flags, s0, s, w);
    if !ok { RoundOutOfPages(s0, s, pt.State(), pt.kmem.lo, pt.kmem.hi, a, k); }
  }

  lemma GrowUnmapped(s0: Space, s: Space, lo: nat, hi: nat, a: nat, k: nat, w: Fill)
    requires GrowDone(s0, s, lo, hi, a, k, w) && a + k !in s0.flat
    ensures a + k !in s.flat
  {
    assert s.At(a + k) == s0.At(a + k);
  }

  // ---------------------------------------------------------------- shrinking

  /** The loop of uvmdealloc: k pages from page a. */
  method DropPages(pt: PageTable, a: nat, k: nat)
    requires pt.Valid() && a + k <= MAXVPN && AllLeaves(pt.State(), a, k)
             && Freeable(pt.State(), pt.kmem.lo, pt.kmem.hi, a, k)
    modifies pt`tables, pt`pos, pt`flat, pt.kmem
    ensures pt.Valid() && UnmapDone(old(pt.State()), pt.State(), a, k, true)
  {
    if k > 0 {
      pt.UvmUnmap(a, k, true);
    } else {
      UnmapNothing(pt.State(), a, true);
    }
  }

  /** uvmdealloc: unmaps and frees the whole pages between newsz and oldsz. */
  method UvmDealloc(pt: PageTable, oldsz: nat, newsz: nat) returns (sz: nat)
    requires pt.Valid()
    requires newsz < oldsz ==>
               && Pages(newsz) <= Pages(oldsz) <= MAXVPN
               && AllLeaves(pt.State(), Pages(newsz), Pages(oldsz) - Pages(newsz))
               && Freeable(pt.State(), pt.kmem.lo, pt.kmem.hi, Pages(newsz), Pages(oldsz) - Pages(newsz))
    modifies pt`tables, pt`pos, pt`flat, pt.kmem
    ensures pt.Valid() && sz == if newsz >= oldsz then oldsz else newsz
    ensures newsz >= oldsz ==> pt.State() == old(pt.State())
    ensures newsz < oldsz ==> Pages(newsz) <= Pages(oldsz)
    ensures newsz < oldsz ==> UnmapDone(old(pt.State()), pt.State(), Pages(newsz), Pages(oldsz) - Pages(newsz), true)
  {
    if newsz >= oldsz { return oldsz; }
    DropPages(pt, Pages(newsz), Pages(oldsz) - Pages(newsz));
    return newsz;
  }

  /** The rollback after k pages: every page taken is unmapped and freed again. */
  method Rollback(pt: PageTable, a: nat, k: nat, ghost s0: Space, ghost b: nat, ghost w: Fill)
    requires pt.Valid() && a + k < b && GrowDone(s0, pt.State(), pt.kmem.lo, pt.kmem.hi, a, k, w)
    requires Plan(s0, pt.kmem.lo, pt.kmem.hi, a, b, w) && OutOfPages(s0, pt.State(), k + 1)
    modifies pt`tables, pt`pos, pt`flat, pt.kmem
    ensures pt.Valid() && Restored(s0, pt.State()) && OutOfPages(s0, pt.State(), b - a)
  {
    ghost var s := pt.State();
    GrownLeaves(s0, s, pt.kmem.lo, pt.kmem.hi, a, k, w, b);
    DropPages(pt, a, k);
    GrowUndone(s0, s, pt.State(), pt.kmem.lo, pt.kmem.hi, a, k, w);
    SameTables(s, pt.State());
  }

  lemma SameTables(s: Space, s': Space)
    requires s'.m.Keys == s.m.Keys
    ensures |s'.m| == |s.m|
  {
    assert |s.m| == |s.m.Keys| && |s'.m| == |s'.m.Keys|;
  }

  lemma GrownLeaves(s0: Space, s: Space, lo: nat, hi: nat, a: nat, k: nat, w: Fill, b: nat)
    requires GrowDone(s0, s, lo, hi, a, k, w) && LeafFlags(w, a, b) && a + k <= b
    ensures AllLeaves(s, a, k) && Freeable(s, lo, hi, a, k)
  {
    forall n: nat | a <= n < a + k
      ensures Leaf(s, n)
    {
      assert FilledPage(s, n, w);
    }
  }

  // ---------------------------------------------------------------- growing

  lemma ZeroLeaves(a: nat, b: nat)
    ensures LeafFlags(Zeros, a, b)
  {
  }

  /** A round of uvmalloc's loop, with the rollback where it fails. */
  method GrowZero(pt: PageTable, a: nat, k: nat, ghost s0: Space, ghost n: nat, ghost b: nat) returns (ok: bool)
    requires pt.Valid() && k < n && b == a + n && GrowDone(s0, pt.State(), pt.kmem.lo, pt.kmem.hi, a, k, Zeros)
    requires Plan(s0, pt.kmem.lo, pt.kmem.hi, a, b, Zeros)
    modifies pt`tables, pt`pos, pt`flat, pt.kmem
    ensures pt.Valid()
    ensures ok ==> GrowDone(s0, pt.State(), pt.kmem.lo, pt.kmem.hi, a, k + 1, Zeros)
    ensures !ok ==> Restored(s0, pt.State()) && OutOfPages(s0, pt.State(), n)
  {
    ok := GrowOne(pt, a, k, None, USER_FLAGS, s0, b, Zeros);
    if !ok { Rollback(pt, a, k, s0, b, Zeros); }
  }

  /** The loop of uvmalloc: n pages from page a, up to page b. */
  method GrowRange(pt: PageTable, a: nat, n: nat, b: nat) returns (ok: bool)
    requires pt.Valid() && b == a + n <= MAXVPN && Unmapped(pt.State(), a, b)
    modifies pt`tables, pt`pos, pt`flat, pt.kmem
    ensures pt.Valid()
    ensures ok ==> GrowDone(old(pt.State()), pt.State(), pt.kmem.lo, pt.kmem.hi, a, n, Zeros)
    ensures !ok ==> Restored(old(pt.State()), pt.State()) && OutOfPages(old(pt.State()), pt.State(), n)
  {
    ghost var s0 := pt.State();
    GrowNothing(s0, pt.kmem.lo, pt.kmem.hi, a, Zeros);
    assert Plan(s0, pt.kmem.lo, pt.kmem.hi, a, b, Zeros) by { ZeroLeaves(a, b); }
    var k := 0;
    while k < n
      invariant k <= n && pt.Valid() && GrowDone(s0, pt.State(), pt.kmem.lo, pt.kmem.hi, a, k, Zeros)
    {
      ok := GrowZero(pt, a, k, s0, n, b);
      if !ok { return; }
      k := k + 1;
    }
    return true;
  }

  /** Exactly the pages between two sizes have been added, each a cleared page of its own. */
  ghost predicate Grew(s: Space, s': Space, lo: nat, hi: nat, oldsz: nat, newsz: nat) {
    var a, b := Pages(oldsz), Pages(newsz);
    a <= b && GrowDone(s, s', lo, hi, a, b - a, Zeros)
  }

  /** There were not enough free pages to go from one size to the other, and what was taken has been put back. */
  ghost predicate CouldNotGrow(s: Space, s': Space, oldsz: nat, newsz: nat) {
    var a, b := Pages(oldsz), Pages(newsz);
    a <= b && Restored(s, s') && OutOfPages(s, s', b - a)
  }

  /** User code may read, write and execute pages a .. b. */
  ghost predicate UserPages(s: Space, a: nat, b: nat) {
    forall n: nat | a <= n < b :: n in s.flat && UserPage(s.flat[n])
  }

  predicate UserPage(e: Pte) { Present(e) && Readable(e) && Writable(e) && Executable(e) && UserOk(e) }

  lemma GrewUser(s: Space, s': Space, lo: nat, hi: nat, oldsz: nat, newsz: nat)
    requires Grew(s, s', lo, hi, oldsz, newsz)
    ensures UserPages(s', Pages(oldsz), Pages(newsz))
  {
    forall n: nat | Pages(oldsz) <= n < Pages(newsz)
      ensures n in s'.flat && UserPage(s'.flat[n])
    {
      assert FilledPage(s', n, Zeros);
    }
  }

  lemma GrewBy(s: Space, s': Space, lo: nat, hi: nat, oldsz: nat, newsz: nat, a: nat, n: nat)
    requires a == Pages(oldsz) && a + n == Pages(newsz) && GrowDone(s, s', lo, hi, a, n, Zeros)
    ensures Grew(s, s', lo, hi, oldsz, newsz)
  {
    assert Pages(newsz) - Pages(oldsz) == n;
  }

  /** uvmalloc. Where it succeeds, exactly the new pages are added, each a cleared page of its own for user code; where it
      fails, every translation is as before and every data page it took is free again. */
  method UvmAlloc(pt: PageTable, oldsz: nat, newsz: nat) returns (sz: nat, ghost ok: bool)
    requires pt.Valid() && newsz <= MAXVA && Unmapped(pt.State(), Pages(oldsz), Pages(newsz))
    modifies pt`tables, pt`pos, pt`flat, pt.kmem
    ensures pt.Valid()
    ensures newsz < oldsz ==> ok && sz == oldsz && pt.State() == old(pt.State())
    ensures newsz >= oldsz && ok ==> && sz == newsz && UserPages(pt.State(), Pages(oldsz), Pages(newsz))
                                     && Grew(old(pt.State()), pt.State(), pt.kmem.lo, pt.kmem.hi, oldsz, newsz)
    ensures !ok ==> sz == 0 && CouldNotGrow(old(pt.State()), pt.State(), oldsz, newsz)
  {
    if newsz < oldsz { return oldsz, true; }
    PagesMonotone(oldsz, newsz);
    var a, b := Pages(oldsz), Pages(newsz);
    var n := b - a;
    var grown := GrowRange(pt, a, n, b);
    if !grown { return 0, false; }
    GrewBy(old(pt.State()), pt.State(), pt.kmem.lo, pt.kmem.hi, oldsz, newsz, a, n);
    GrewUser(old(pt.State()), pt.State(), pt.kmem.lo, pt.kmem.hi, oldsz, newsz);
    return newsz, true;
  }

  // ---------------------------------------------------------------- copying

  /** The pages of src can be copied: mapped by leaves to RAM that is not free. */
  ghost predicate Copyable(s: Space, count: nat) {
    forall n: nat | n < count :: Leaf(s, n) && VBit(s.flat[n].flags) && PhysOf(s, n) in s.page && PhysOf(s, n) !in s.fl
  }

  /** What is left of src when pages have been taken for another space: all of it. */
  lemma SourceKept(src: Space, s0: Space, lo: nat, hi: nat, s: Space)
    requires SpaceOk(src, lo, hi) && src.fl == s0.fl && Pool(s.fl) <= Pool(s0.fl)
    ensures SpaceOk(src.(fl := s.fl, page := s.page), lo, hi)
  {
    forall p | p in src.m ensures p !in s.fl {
      assert p !in Pool(s0.fl);
    }
  }

  lemma SourcePage(src: Space, s0: Space, s: Space, lo: nat, hi: nat, k: nat, count: nat)
    requires src.fl == s0.fl && src.page == s0.page && Copyable(src, count) && k < count
    requires GrowDone(s0, s, lo, hi, 0, k, CopyOf(src.flat, src.page))
    ensures k in src.flat && src.flat[k].ppn in s.page && src.flat[k].ppn !in s.fl
    ensures s.page[src.flat[k].ppn] == CopyOf(src.flat, src.page).Content(k)
  {
    assert Leaf(src, k) && PhysOf(src, k) !in Pool(s0.fl);
  }

  /** The entry uvmcopy reads for page k of src. */
  method ReadEntry(src: PageTable, k: nat) returns (e: Pte)
    requires src.Valid() && k < MAXVPN && k in src.flat
    modifies src`tables, src`pos, src.kmem
    ensures src.Valid() && src.State() == old(src.State()) && e == src.flat[k]
  {
    WalkFinds(src.State(), src.kmem.lo, src.kmem.hi, k);
    var t := src.Walk(k, false);
    return src.tables[t.value][Split(k).i0];
  }

  /** The tables and translations of src are those of from. */
  ghost predicate SourceIs(src: PageTable, from: Space)
    reads src
  {
    src.tables == from.m && src.root == from.root && src.pos == from.pos && src.flat == from.flat
  }

  /** One round of uvmcopy: page k. */
  method CopyOne(src: PageTable, dst: PageTable, k: nat, ghost count: nat, ghost s0: Space, ghost from: Space)
    returns (ok: bool)
    requires src != dst && src.kmem == dst.kmem && src.Valid() && dst.Valid() && k < count
    requires SourceIs(src, from) && SpaceOk(from, dst.kmem.lo, dst.kmem.hi)
    requires from.fl == s0.fl && from.page == s0.page && Copyable(from, count)
    requires Plan(s0, dst.kmem.lo, dst.kmem.hi, 0, count, CopyOf(from.flat, from.page))
    requires GrowDone(s0, dst.State(), dst.kmem.lo, dst.kmem.hi, 0, k, CopyOf(from.flat, from.page))
    modifies src`tables, src`pos, dst`tables, dst`pos, dst`flat, dst.kmem
    ensures SourceIs(src, from) && src.Valid() && dst.Valid() && (!ok ==> OutOfPages(s0, dst.State(), k + 1))
    ensures GrowDone(s0, dst.State(), dst.kmem.lo, dst.kmem.hi, 0, if ok then k + 1 else k, CopyOf(from.flat, from.page))
  {
    ghost var w := CopyOf(from.flat, from.page);
    SourcePage(from, s0, dst.State(), dst.kmem.lo, dst.kmem.hi, k, count);
    assert Leaf(from, k);
    var e := ReadEntry(src, k);
    ok := GrowOne(dst, 0, k, Some(e.ppn), e.flags, s0, count, w);
    SourceKept(from, s0, dst.kmem.lo, dst.kmem.hi, dst.State());
  }

  /** The error exit of uvmcopy. */
  method CopyFailed(src: PageTable, dst: PageTable, k: nat, ghost count: nat, ghost s0: Space, ghost from: Space)
    requires src != dst && src.kmem == dst.kmem && dst.Valid() && k < count
    requires SourceIs(src, from) && SpaceOk(from, dst.kmem.lo, dst.kmem.hi) && from.fl == s0.fl
    requires Plan(s0, dst.kmem.lo, dst.kmem.hi, 0, count, CopyOf(from.flat, from.page))
    requires GrowDone(s0, dst.State(), dst.kmem.lo, dst.kmem.hi, 0, k, CopyOf(from.flat, from.page))
    requires OutOfPages(s0, dst.State(), k + 1)
    modifies dst`tables, dst`pos, dst`flat, dst.kmem
    ensures SourceIs(src, from) && src.Valid() && dst.Valid() && Restored(s0, dst.State())
            && OutOfPages(s0, dst.State(), count)
  {
    Rollback(dst, 0, k, s0, count, CopyOf(from.flat, from.page));
    SourceKept(from, s0, dst.kmem.lo, dst.kmem.hi, dst.State());
  }

  /** uvmcopy. On success the child maps the same pages with the same flags, each to a page of its own with the
      parent's bytes; on failure the child translates as before and every data page taken is free again. The
      parent keeps its translations and its bytes either way. */
  method UvmCopy(src: PageTable, dst: PageTable, sz: nat) returns (ok: bool)
    requires src != dst && src.kmem == dst.kmem && src.Valid() && dst.Valid() && sz <= MAXVA
    requires Copyable(src.State(), Pages(sz)) && Unmapped(dst.State(), 0, Pages(sz))
    modifies src`tables, src`pos, dst`tables, dst`pos, dst`flat, dst.kmem
    ensures dst.Valid() && src.Valid() && src.tables == old(src.tables) && src.pos == old(src.pos)
    ensures ok ==> GrowDone(old(dst.State()), dst.State(), dst.kmem.lo, dst.kmem.hi, 0, Pages(sz),
                            CopyOf(src.flat, old(src.kmem.page)))
    ensures !ok ==> Restored(old(dst.State()), dst.State()) && OutOfPages(old(dst.State()), dst.State(), Pages(sz))
  {
    ghost var s0, from := dst.State(), src.State();
    ghost var w := CopyOf(from.flat, from.page);
    var count := Pages(sz);
    PagesMonotone(sz, MAXVA);
    GrowNothing(s0, dst.kmem.lo, dst.kmem.hi, 0, w);
    CopyLeaves(from, count, w);
    var k := 0;
    while k < count
      invariant k <= count && dst.Valid() && src.Valid() && SourceIs(src, from)
      invariant GrowDone(s0, dst.State(), dst.kmem.lo, dst.kmem.hi, 0, k, w)
    {
      ok := CopyOne(src, dst, k, count, s0, from);
      if !ok {
        CopyFailed(src, dst, k, count, s0, from);
        return;
      }
      k := k + 1;
    }
    return true;
  }

  lemma CopyLeaves(from: Space, count: nat, w: Fill)
    requires Copyable(from, count) && w == CopyOf(from.flat, from.page)
    ensures LeafFlags(w, 0, count)
  {
    forall n: nat | n < count ensures VBit(w.Flags(n)) && w.Flags(n) != PTE_V {
      assert Leaf(from, n);
    }
  }
}
