/** proc_pagetable and proc_freepagetable (kernel/proc.c), and the life of a process's address space between them: the
    trampoline and the trapframe mapped at its top, any run of sbrk and of exec's resizes below. */
module ProcTable {
  import opened Options
  import opened Collections
  import opened Params
  import opened PageTableModel
  import opened Kalloc
  import opened Vm
  import opened VmGrow
  import opened UserVm
  import opened VmFree
  import opened GrowProc

  const TRAMPOLINE: nat := MAXVA - PGSIZE
  const TRAPFRAME: nat := TRAMPOLINE - PGSIZE
  const TRAMPOLINE_PAGE: nat := MAXVPN - 1
  const TRAPFRAME_PAGE: nat := MAXVPN - 2

  const RX: nat := 10          // PTE_R | PTE_X
  const RW: nat := 6           // PTE_R | PTE_W

  /** What proc_pagetable maps: the trampoline's code and the process's trapframe, at these physical addresses. */
  function Top(trampoline: nat, trapframe: nat): (above: map<nat, Pte>) {
    map[TRAMPOLINE_PAGE := Pte(trampoline / PGSIZE, WithV(RX)), TRAPFRAME_PAGE := Pte(trapframe / PGSIZE, WithV(RW))]
  }

  // ---------------------------------------------------------------- one page at the top

  /** Mapping a page above an empty process takes at most table pages. */
  lemma TopMapped(s: Space, s': Space, lo: nat, hi: nat, n: nat, ppn: nat, flags: nat, above: map<nat, Pte>,
                  all: set<nat>)
    requires Accounted(s, lo, hi, 0, above, all) && MapDone(s, s', n, 1, ppn, flags)
    ensures Accounted(s', lo, hi, 0, above[n := Pte(ppn, flags)], all)
  {
    ExtendedPool(s.m, s.pos, s.fl, s'.m, s'.pos, s'.fl);
    forall k: nat | k >= 0
      ensures s'.At(k) == AboveAt(above[n := Pte(ppn, flags)], k)
    {
      assert s'.At(k) == if n <= k < n + 1 then Some(Pte(ppn + (k - n), flags)) else s.At(k);
      assert s.At(k) == AboveAt(above, k);
    }
  }

  /** So does an attempt that fails. */
  lemma TopNotMapped(s: Space, s': Space, lo: nat, hi: nat, n: nat, ppn: nat, flags: nat, above: map<nat, Pte>,
                     all: set<nat>)
    requires Accounted(s, lo, hi, 0, above, all) && MapDone(s, s', n, 0, ppn, flags)
    ensures Accounted(s', lo, hi, 0, above, all)
  {
    ExtendedPool(s.m, s.pos, s.fl, s'.m, s'.pos, s'.fl);
    forall k: nat | k >= 0 ensures s'.At(k) == AboveAt(above, k) { assert s'.At(k) == s.At(k); }
  }

  /** uvmunmap of a page above, without freeing it. */
  lemma TopUnmapped(s: Space, s': Space, lo: nat, hi: nat, sz: nat, n: nat, above: map<nat, Pte>, all: set<nat>)
    requires Accounted(s, lo, hi, sz, above, all) && n in above && UnmapDone(s, s', n, 1, false)
    ensures Accounted(s', lo, hi, sz, above - {n}, all)
  {
    var c := Pages(sz);
    forall k: nat | k < c
      ensures Leaf(s', k) && FreeablePage(s', lo, hi, k) && PhysOf(s', k) == PhysOf(s, k)
    {
      assert Leaf(s, k) && FreeablePage(s, lo, hi, k) && s'.At(k) == s.At(k);
    }
    DataSame(s, s', 0, c);
    forall k: nat | k >= c
      ensures s'.At(k) == AboveAt(above - {n}, k)
    {
      assert s'.At(k) == if n <= k < n + 1 then None else s.At(k);
      assert s.At(k) == AboveAt(above, k);
    }
  }

  lemma TopIsLeaf(s: Space, lo: nat, hi: nat, sz: nat, n: nat, above: map<nat, Pte>, all: set<nat>)
    requires Accounted(s, lo, hi, sz, above, all) && n in above && above[n].flags != PTE_V
    ensures AllLeaves(s, n, 1)
  {
    assert s.At(n) == AboveAt(above, n);
  }

  /** mappages of one page above an empty process. */
  method MapTop(pt: PageTable, va: nat, n: nat, pa: nat, perm: nat, ghost above: map<nat, Pte>, ghost all: set<nat>)
    returns (ok: bool)
    requires pt.Valid() && n < MAXVPN && va == n * PGSIZE && n !in above
    requires Accounted(pt.State(), pt.kmem.lo, pt.kmem.hi, 0, above, all)
    modifies pt`tables, pt`pos, pt`flat, pt.kmem
    ensures pt.Valid()
    ensures Accounted(pt.State(), pt.kmem.lo, pt.kmem.hi, 0,
                      if ok then above[n := Pte(pa / PGSIZE, WithV(perm))] else above, all)
    ensures !ok ==> pt.kmem.freelist == []
    ensures ok == Affords(old(pt.State()), n)
  {
    assert pt.State().At(n) == AboveAt(above, n);
    ghost var k;
    ok, k := pt.MapPages(va, PGSIZE, pa, perm);
    if ok {
      TopMapped(old(pt.State()), pt.State(), pt.kmem.lo, pt.kmem.hi, n, pa / PGSIZE, WithV(perm), above, all);
    } else {
      TopNotMapped(old(pt.State()), pt.State(), pt.kmem.lo, pt.kmem.hi, n, pa / PGSIZE, WithV(perm), above, all);
    }
  }

  /** uvmunmap of one page above, without freeing it. */
  method UnmapTop(pt: PageTable, sz: nat, n: nat, ghost above: map<nat, Pte>, ghost all: set<nat>)
    requires pt.Valid() && Accounted(pt.State(), pt.kmem.lo, pt.kmem.hi, sz, above, all)
    requires n < MAXVPN && n in above && above[n].flags != PTE_V
    modifies pt`tables, pt`pos, pt`flat, pt.kmem
    ensures pt.Valid() && Accounted(pt.State(), pt.kmem.lo, pt.kmem.hi, sz, above - {n}, all)
  {
    TopIsLeaf(pt.State(), pt.kmem.lo, pt.kmem.hi, sz, n, above, all);
    pt.UvmUnmap(n, 1, false);
    TopUnmapped(old(pt.State()), pt.State(), pt.kmem.lo, pt.kmem.hi, sz, n, above, all);
  }

  /** uvmfree, once nothing is mapped above: all pages are free. */
  method FreeAll(pt: PageTable, sz: nat, ghost all: set<nat>)
    requires pt.Valid() && sz <= MAXVA && Accounted(pt.State(), pt.kmem.lo, pt.kmem.hi, sz, map[], all)
    modifies pt`tables, pt`pos, pt`flat, pt.kmem
    ensures pt.kmem.Valid() && Pool(pt.kmem.freelist) == all
  {
    OccupiedAlone(pt.State(), pt.kmem.lo, pt.kmem.hi, Pages(sz));
    UvmFree(pt, sz);
  }

  /** uvmunmap of the only page above, then uvmfree. */
  method UnmapAndFree(pt: PageTable, sz: nat, n: nat, ghost above: map<nat, Pte>, ghost all: set<nat>)
    requires pt.Valid() && sz <= MAXVA && Accounted(pt.State(), pt.kmem.lo, pt.kmem.hi, sz, above, all)
    requires n < MAXVPN && n in above && above[n].flags != PTE_V && above - {n} == map[]
    modifies pt`tables, pt`pos, pt`flat, pt.kmem
    ensures pt.kmem.Valid() && Pool(pt.kmem.freelist) == all
  {
    UnmapTop(pt, sz, n, above, all);
    FreeAll(pt, sz, all);
  }

  // ---------------------------------------------------------------- proc_pagetable and proc_freepagetable

  function TrampolineOnly(trampoline: nat): (above: map<nat, Pte>) {
    map[TRAMPOLINE_PAGE := Pte(trampoline / PGSIZE, WithV(RX))]
  }

  function TrapframeOnly(trapframe: nat): (above: map<nat, Pte>) {
    map[TRAPFRAME_PAGE := Pte(trapframe / PGSIZE, WithV(RW))]
  }

  lemma TopParts(trampoline: nat, trapframe: nat)
    ensures TrampolineOnly(trampoline)[TRAPFRAME_PAGE := Pte(trapframe / PGSIZE, WithV(RW))] == Top(trampoline, trapframe)
    ensures Top(trampoline, trapframe) - {TRAMPOLINE_PAGE} == TrapframeOnly(trapframe)
    ensures TrampolineOnly(trampoline) - {TRAMPOLINE_PAGE} == map[]
            && TrapframeOnly(trapframe) - {TRAPFRAME_PAGE} == map[]
  {
  }

  /** uvmcreate: a table that maps nothing. */
  method Uvmcreate(kmem: Kmem) returns (r: Option<PageTable>)
    requires kmem.Valid()
    modifies kmem
    ensures kmem.Valid() && (r.None? <==> old(kmem.freelist) == [])
    ensures r.None? ==> kmem.freelist == old(kmem.freelist)
    ensures r.Some? ==> && fresh(r.value) && r.value.kmem == kmem && r.value.Valid()
                        && r.value.tables == map[r.value.root := Blank()] && kmem.freelist == old(kmem.freelist)[1..]
                        && Accounted(r.value.State(), kmem.lo, kmem.hi, 0, map[], Pool(old(kmem.freelist)))
  {
    var page := kmem.Kalloc();
    if page.None? { return None; }
    assert page.value in Pool(old(kmem.freelist)) by { assert old(kmem.freelist)[0] in old(kmem.freelist); }
    var pt := new PageTable(kmem, page.value);
    return Some(pt);
  }

  /** The first page mapped at the top takes two tables. */
  lemma FirstTakesTwo(s: Space)
    requires s.root in s.m && s.m[s.root] == Blank()
    ensures Missing(s, TRAMPOLINE_PAGE) == 2
  {
  }

  /** The second takes none: its entry is in the table that the first made. */
  lemma SecondTakesNone(s: Space, lo: nat, hi: nat, above: map<nat, Pte>, all: set<nat>)
    requires SpaceOk(s, lo, hi) && Accounted(s, lo, hi, 0, above, all) && TRAMPOLINE_PAGE in above
    ensures Affords(s, TRAPFRAME_PAGE)
  {
    assert s.At(TRAMPOLINE_PAGE) == AboveAt(above, TRAMPOLINE_PAGE);
    WalkFinds(s, lo, hi, TRAMPOLINE_PAGE);
    var v, w := Split(TRAMPOLINE_PAGE), Split(TRAPFRAME_PAGE);
    assert v.i2 == w.i2 && v.i1 == w.i1;
  }

  /** The two mappages of proc_pagetable; where either fails, everything is freed. Only the first can fail, for want of
      two pages for tables. */
  method MapBoth(pt: PageTable, trampoline: nat, trapframe: nat, ghost all: set<nat>) returns (ok: bool)
    requires pt.Valid() && pt.tables == map[pt.root := Blank()]
    requires Accounted(pt.State(), pt.kmem.lo, pt.kmem.hi, 0, map[], all)
    modifies pt`tables, pt`pos, pt`flat, pt.kmem
    ensures pt.kmem.Valid() && (!ok ==> Pool(pt.kmem.freelist) == all)
    ensures ok ==> pt.Valid() && Accounted(pt.State(), pt.kmem.lo, pt.kmem.hi, 0, Top(trampoline, trapframe), all)
    ensures ok == (|old(pt.kmem.freelist)| >= 2)
  {
    TopParts(trampoline, trapframe);
    FirstTakesTwo(pt.State());
    ok := MapTop(pt, TRAMPOLINE, TRAMPOLINE_PAGE, trampoline, RX, map[], all);
    if !ok {
      FreeAll(pt, 0, all);
    } else {
      ghost var above, s1 := TrampolineOnly(trampoline), pt.State();
      ok := MapTop(pt, TRAPFRAME, TRAPFRAME_PAGE, trapframe, RW, above, all);
      if !ok { UnmapAndFree(pt, 0, TRAMPOLINE_PAGE, above, all); }
      SecondTakesNone(s1, pt.kmem.lo, pt.kmem.hi, above, all);
    }
  }

  /** How the two top pages are mapped: for the kernel alone, the trampoline to be read and executed, the trapframe to be
      read and written. */
  ghost predicate Guarded(flat: map<nat, Pte>, trampoline: nat, trapframe: nat) {
    && TRAMPOLINE_PAGE in flat && TRAPFRAME_PAGE in flat
    && var e, f := flat[TRAMPOLINE_PAGE], flat[TRAPFRAME_PAGE];
       && e.ppn == trampoline / PGSIZE && Present(e) && Readable(e) && !Writable(e) && Executable(e) && !UserOk(e)
       && f.ppn == trapframe / PGSIZE && Present(f) && Readable(f) && Writable(f) && !Executable(f) && !UserOk(f)
  }

  lemma TopGuarded(s: Space, lo: nat, hi: nat, sz: nat, trampoline: nat, trapframe: nat, all: set<nat>)
    requires Accounted(s, lo, hi, sz, Top(trampoline, trapframe), all)
    ensures Guarded(s.flat, trampoline, trapframe)
  {
    var above := Top(trampoline, trapframe);
    assert s.At(TRAMPOLINE_PAGE) == AboveAt(above, TRAMPOLINE_PAGE)
           && s.At(TRAPFRAME_PAGE) == AboveAt(above, TRAPFRAME_PAGE);
    assert WithV(RX) / 2 == RX / 2 && WithV(RW) / 2 == RW / 2;
  }

  /** proc_pagetable. It returns a table that maps nothing but the two top pages, out of user code's reach; it fails
      exactly where fewer than three pages are free, and then every page it took is free again. */
  method ProcPagetable(kmem: Kmem, trampoline: nat, trapframe: nat) returns (r: Option<PageTable>)
    requires kmem.Valid()
    modifies kmem
    ensures kmem.Valid() && (r.None? <==> |old(kmem.freelist)| < 3)
    ensures r.None? ==> Pool(kmem.freelist) == Pool(old(kmem.freelist))
    ensures r.Some? ==> && fresh(r.value) && r.value.kmem == kmem && r.value.Valid()
                        && Guarded(r.value.flat, trampoline, trapframe)
                        && Accounted(r.value.State(), kmem.lo, kmem.hi, 0, Top(trampoline, trapframe),
                                     Pool(old(kmem.freelist)))
  {
    r := Uvmcreate(kmem);
    if r.None? { return; }
    var pt := r.value;
    var ok := MapBoth(pt, trampoline, trapframe, Pool(old(kmem.freelist)));
    if !ok { return None; }
    TopGuarded(pt.State(), kmem.lo, kmem.hi, 0, trampoline, trapframe, Pool(old(kmem.freelist)));
  }

  /** proc_freepagetable: the two top pages are unmapped and not freed, everything else is freed. */
  method ProcFreepagetable(pt: PageTable, sz: nat, ghost trampoline: nat, ghost trapframe: nat, ghost all: set<nat>)
    requires pt.Valid() && sz <= MAXVA
    requires Accounted(pt.State(), pt.kmem.lo, pt.kmem.hi, sz, Top(trampoline, trapframe), all)
    modifies pt`tables, pt`pos, pt`flat, pt.kmem
    ensures pt.kmem.Valid() && Pool(pt.kmem.freelist) == all
  {
    TopParts(trampoline, trapframe);
    UnmapTop(pt, sz, TRAMPOLINE_PAGE, Top(trampoline, trapframe), all);
    UnmapAndFree(pt, sz, TRAPFRAME_PAGE, TrapframeOnly(trapframe), all);
  }

  // ---------------------------------------------------------------- the whole life

  lemma {:induction false} DataInRam(s: Space, lo: nat, hi: nat, k: nat)
    requires Freeable(s, lo, hi, 0, k)
    ensures forall p | p in DataPages(s, 0, k) :: lo <= p < hi
  {
    if k > 0 {
      assert FreeablePage(s, lo, hi, k - 1);
      DataInRam(s, lo, hi, k - 1);
    }
  }

  /** A process is no larger than memory: each of its pages is another page of RAM. */
  lemma SizeInRam(s: Space, lo: nat, hi: nat, sz: nat, above: map<nat, Pte>, all: set<nat>)
    requires Accounted(s, lo, hi, sz, above, all)
    ensures Pages(sz) == 0 || Pages(sz) <= hi - lo
  {
    var c := Pages(sz);
    if c > 0 {
      assert FreeablePage(s, lo, hi, 0);
      DataCount(s, lo, hi, c);
      DataInRam(s, lo, hi, c);
      SubsetCount(DataPages(s, 0, c), Interval(lo, hi - lo));
    }
  }

  /** A call of sbrk with n, or a growth or shrinking to a size of exec's choice. */
  datatype Request = Sbrk(n: int) | To(size: nat)

  /** Memory that the 32-bit size of growproc can count. */
  const MAXRAM: nat := 0xf_ffff

  /** sbrk takes an int; exec keeps below the trapframe. */
  predicate Sensible(q: Request) {
    match q case Sbrk(n) => IsInt(n) case To(size) => size <= TRAPFRAME
  }

  /** The size a process of size sz asks for. sbrk beyond 32 bits asks for none. */
  function Wanted(q: Request, sz: nat): (want: nat) {
    match q
    case Sbrk(n) => if 0 <= sz + n < WORD32 then sz + n else sz
    case To(size) => size
  }

  /** One request: the process has the size it asked for, unless the pages did not suffice. */
  method Serve(pt: PageTable, sz: nat, q: Request, ghost trampoline: nat, ghost trapframe: nat, ghost all: set<nat>)
    returns (sz': nat)
    requires pt.Valid() && sz <= MAXVA && pt.kmem.hi - pt.kmem.lo <= MAXRAM && Sensible(q)
    requires Accounted(pt.State(), pt.kmem.lo, pt.kmem.hi, sz, Top(trampoline, trapframe), all)
    modifies pt`tables, pt`pos, pt`flat, pt.kmem
    ensures pt.Valid() && sz' <= MAXVA
    ensures Accounted(pt.State(), pt.kmem.lo, pt.kmem.hi, sz', Top(trampoline, trapframe), all)
    ensures sz' == Wanted(q, sz) || (sz' == sz < Wanted(q, sz) && CouldNotGrow(old(pt.State()), pt.State(), sz, Wanted(q, sz)))
  {
    match q
    case Sbrk(n) =>
      SizeInRam(pt.State(), pt.kmem.lo, pt.kmem.hi, sz, Top(trampoline, trapframe), all);
      var ok;
      ok, sz' := Growproc(pt, sz, n, Top(trampoline, trapframe), all);
    case To(size) =>
      PagesMonotone(size, TRAPFRAME);
      sz' := Resize(pt, sz, size, Top(trampoline, trapframe), all);
  }

  /** Each request gives the size asked for or, where it asks for more, may leave the size as it was. */
  predicate Served(requests: seq<Request>, sizes: seq<nat>) {
    && 1 <= |sizes| <= |requests| + 1 && sizes[0] == 0
    && forall i | 0 <= i < |sizes| - 1 ::
         sizes[i + 1] == Wanted(requests[i], sizes[i]) || sizes[i + 1] == sizes[i] < Wanted(requests[i], sizes[i])
  }

  lemma ServedMore(requests: seq<Request>, sizes: seq<nat>, sz: nat)
    requires Served(requests, sizes) && |sizes| <= |requests|
    requires var q, last := requests[|sizes| - 1], sizes[|sizes| - 1]; sz == Wanted(q, last) || sz == last < Wanted(q, last)
    ensures Served(requests, sizes + [sz])
  {
  }

  /** The requests of a process, one after another. */
  method ServeAll(pt: PageTable, requests: seq<Request>, ghost trampoline: nat, ghost trapframe: nat,
                  ghost all: set<nat>)
    returns (sizes: seq<nat>)
    requires pt.Valid() && pt.kmem.hi - pt.kmem.lo <= MAXRAM
    requires forall i | 0 <= i < |requests| :: Sensible(requests[i])
    requires Accounted(pt.State(), pt.kmem.lo, pt.kmem.hi, 0, Top(trampoline, trapframe), all)
    modifies pt`tables, pt`pos, pt`flat, pt.kmem
    ensures pt.Valid() && Served(requests, sizes) && |sizes| == |requests| + 1 && sizes[|requests|] <= MAXVA
    ensures Accounted(pt.State(), pt.kmem.lo, pt.kmem.hi, sizes[|requests|], Top(trampoline, trapframe), all)
  {
    var sz: nat, i := 0, 0;
    sizes := [0];
    while i < |requests|
      invariant i <= |requests| && sz <= MAXVA && pt.Valid()
      invariant |sizes| == i + 1 && sizes[i] == sz && Served(requests, sizes)
      invariant Accounted(pt.State(), pt.kmem.lo, pt.kmem.hi, sz, Top(trampoline, trapframe), all)
    {
      sz := Serve(pt, sz, requests[i], trampoline, trapframe, all);
      ServedMore(requests, sizes, sz);
      sizes, i := sizes + [sz], i + 1;
    }
  }

  /** A process's address space from proc_pagetable to proc_freepagetable, with any run of requests between, whether or
      not memory suffices for any of it: the same pages are free as before, each once. The process had sizes one after
      another, from 0, one for each request; none at all where it could not be made. */
  method Life(kmem: Kmem, trampoline: nat, trapframe: nat, requests: seq<Request>) returns (sizes: seq<nat>)
    requires kmem.Valid() && kmem.hi - kmem.lo <= MAXRAM
    requires forall i | 0 <= i < |requests| :: Sensible(requests[i])
    modifies kmem
    ensures kmem.Valid() && Pool(kmem.freelist) == Pool(old(kmem.freelist))
    ensures |kmem.freelist| == |old(kmem.freelist)|
    ensures if |kmem.freelist| < 3 then sizes == [] else Served(requests, sizes) && |sizes| == |requests| + 1
  {
    ghost var all := Pool(kmem.freelist);
    PoolSize(kmem.freelist);
    sizes := [];
    var r := ProcPagetable(kmem, trampoline, trapframe);
    if r.Some? {
      sizes := ServeAll(r.value, requests, trampoline, trapframe, all);
      ProcFreepagetable(r.value, sizes[|requests|], trampoline, trapframe, all);
    }
    PoolSize(kmem.freelist);
  }
}
