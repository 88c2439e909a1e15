/** Moving bytes between the kernel and user memory: walkaddr, copyout and copyin (kernel/vm.c). */
module CopyUser {
  import opened Options
  import opened Params
  import opened PageTableModel
  import opened Kalloc
  import opened Vm

  /** User code may use address va: walkaddr does not return 0 for its page. */
  predicate UserAddr(flat: map<nat, Pte>, va: nat) {
    va < MAXVA && va / PGSIZE in flat && UserOk(flat[va / PGSIZE]) && flat[va / PGSIZE].ppn != 0
  }

  function Frame(flat: map<nat, Pte>, va: nat): (p: nat)
    requires UserAddr(flat, va)
  {
    flat[va / PGSIZE].ppn
  }

  /** User pages are RAM. */
  predicate RamMapped(flat: map<nat, Pte>, page: map<nat, Bytes>) {
    forall n | n in flat :: UserOk(flat[n]) ==> flat[n].ppn in page
  }

  predicate Accessible(flat: map<nat, Pte>, lo: nat, hi: nat) {
    forall va: nat | lo <= va < hi :: UserAddr(flat, va)
  }

  /** The byte user code would load from va. */
  function Load(flat: map<nat, Pte>, page: map<nat, Bytes>, va: nat): (b: int)
    requires RamMapped(flat, page) && UserAddr(flat, va)
  {
    page[Frame(flat, va)][va % PGSIZE]
  }

  /** User code storing b at va. */
  function Store(flat: map<nat, Pte>, page: map<nat, Bytes>, va: nat, b: int): (page': map<nat, Bytes>)
    requires RamMapped(flat, page) && UserAddr(flat, va)
    ensures RamMapped(flat, page')
  {
    page[Frame(flat, va) := page[Frame(flat, va)][va % PGSIZE := b]]
  }

  /** User code storing data byte by byte from va up. */
  function Stored(flat: map<nat, Pte>, page: map<nat, Bytes>, va: nat, data: seq<int>): (page': map<nat, Bytes>)
    requires RamMapped(flat, page) && Accessible(flat, va, va + |data|)
    ensures RamMapped(flat, page')
    decreases |data|
  {
    if data == [] then page else Stored(flat, Store(flat, page, va, data[0]), va + 1, data[1..])
  }

  /** User code loading len bytes from va up. */
  function Loaded(flat: map<nat, Pte>, page: map<nat, Bytes>, va: nat, len: nat): (data: seq<int>)
    requires RamMapped(flat, page) && Accessible(flat, va, va + len)
    ensures |data| == len
  {
    seq(len, i requires 0 <= i < len => Load(flat, page, va + i))
  }

  // ---------------------------------------------------------------- what the stores do

  /** Two addresses share a byte of RAM. */
  predicate Alias(flat: map<nat, Pte>, x: nat, y: nat)
    requires UserAddr(flat, x) && UserAddr(flat, y)
  {
    Frame(flat, x) == Frame(flat, y) && x % PGSIZE == y % PGSIZE
  }

  /** Addresses of the range that share a byte are to receive the same value. */
  predicate Consistent(flat: map<nat, Pte>, va: nat, data: seq<int>)
    requires Accessible(flat, va, va + |data|)
  {
    forall x: nat, y: nat | va <= x < y < va + |data| :: Alias(flat, x, y) ==> data[x - va] == data[y - va]
  }

  /** The store of data through address y puts b where x is. */
  predicate Writes(flat: map<nat, Pte>, va: nat, data: seq<int>, y: nat, x: nat, b: int)
    requires Accessible(flat, va, va + |data|) && UserAddr(flat, x)
  {
    va <= y < va + |data| && Alias(flat, y, x) && data[y - va] == b
  }

  lemma StoreLoad(flat: map<nat, Pte>, page: map<nat, Bytes>, va: nat, b: int, x: nat)
    requires RamMapped(flat, page) && UserAddr(flat, va) && UserAddr(flat, x)
    ensures Load(flat, Store(flat, page, va, b), x) == if Alias(flat, va, x) then b else Load(flat, page, x)
  {
  }

  /** What the stores leave at x, and the address it was stored through: the last of the range that shares a
      byte with x; or, if there is none, what was there. */
  lemma {:induction false} StoredLoad(flat: map<nat, Pte>, page: map<nat, Bytes>, va: nat, data: seq<int>, x: nat)
    returns (through: Option<nat>)
    requires RamMapped(flat, page) && Accessible(flat, va, va + |data|) && UserAddr(flat, x)
    ensures through.Some? ==> Writes(flat, va, data, through.value, x, Load(flat, Stored(flat, page, va, data), x))
    ensures through.None? ==> Load(flat, Stored(flat, page, va, data), x) == Load(flat, page, x)
    ensures forall y: nat | va <= y < va + |data| && Alias(flat, y, x) :: through.Some? && y <= through.value
    decreases |data|
  {
    if data == [] { return None; }
    StoreLoad(flat, page, va, data[0], x);
    through := StoredLoad(flat, Store(flat, page, va, data[0]), va + 1, data[1..], x);
    if through.None? && Alias(flat, va, x) { through := Some(va); }
  }

  /** copyout then copyin of the same range gives the bytes back exactly when addresses sharing a byte of RAM
      were given the same value. */
  lemma RoundTrip(flat: map<nat, Pte>, page: map<nat, Bytes>, va: nat, data: seq<int>)
    requires RamMapped(flat, page) && Accessible(flat, va, va + |data|)
    ensures Loaded(flat, Stored(flat, page, va, data), va, |data|) == data <==> Consistent(flat, va, data)
  {
    var page' := Stored(flat, page, va, data);
    var got := Loaded(flat, page', va, |data|);
    if Consistent(flat, va, data) {
      forall i: nat | i < |data| ensures got[i] == data[i] { LoadedBack(flat, page, va, data, va + i); }
    }
    if got == data {
      forall x: nat, y: nat | va <= x < y < va + |data| && Alias(flat, x, y) ensures data[x - va] == data[y - va] {
        assert got[x - va] == Load(flat, page', x) && got[y - va] == Load(flat, page', y);
      }
    }
  }

  lemma LoadedBack(flat: map<nat, Pte>, page: map<nat, Bytes>, va: nat, data: seq<int>, x: nat)
    requires RamMapped(flat, page) && Accessible(flat, va, va + |data|) && va <= x < va + |data|
             && Consistent(flat, va, data)
    ensures Load(flat, Stored(flat, page, va, data), x) == data[x - va]
  {
    var y := StoredLoad(flat, page, va, data, x);
    assert Alias(flat, x, x);
    assert Alias(flat, x, y.value);
  }

  /** Pages of the range mapped to different physical pages never share a byte. */
  lemma InjectiveConsistent(flat: map<nat, Pte>, va: nat, data: seq<int>)
    requires Accessible(flat, va, va + |data|)
    requires forall n: nat, n': nat | n in flat && n' in flat && va / PGSIZE <= n < n' && n' * PGSIZE < va + |data| ::
               flat[n].ppn != flat[n'].ppn
    ensures Consistent(flat, va, data)
  {
    forall x: nat, y: nat | va <= x < y < va + |data| ensures !Alias(flat, x, y) {
      var n, n' := x / PGSIZE, y / PGSIZE;
      assert va / PGSIZE <= n <= n' && n' * PGSIZE <= y;
      assert UserAddr(flat, x) && UserAddr(flat, y);
      assert n < n' ==> flat[n].ppn != flat[n'].ppn;
    }
  }

  // ---------------------------------------------------------------- one page at a time

  lemma {:induction false} StoredAppend(flat: map<nat, Pte>, page: map<nat, Bytes>, va: nat, a: seq<int>, b: seq<int>)
    requires RamMapped(flat, page) && Accessible(flat, va, va + |a| + |b|)
    ensures |a + b| == |a| + |b| && Accessible(flat, va, va + |a|) && Accessible(flat, va + |a|, va + |a| + |b|)
    ensures Stored(flat, page, va, a + b) == Stored(flat, Stored(flat, page, va, a), va + |a|, b)
    decreases |a|
  {
    if a == [] {
      assert a + b == b;
    } else {
      assert (a + b)[1..] == a[1..] + b;
      StoredAppend(flat, Store(flat, page, va, a[0]), va + 1, a[1..], b);
    }
  }

  /** memmove of data to offset off of page p. */
  function Move(page: map<nat, Bytes>, p: nat, off: nat, data: seq<int>): (page': map<nat, Bytes>)
    requires p in page && off + |data| <= PGSIZE
  {
    page[p := page[p][..off] + data + page[p][off + |data|..]]
  }

  /** A memmove within one page is the stores of its bytes. */
  lemma {:induction false} MoveStores(flat: map<nat, Pte>, page: map<nat, Bytes>, va: nat, data: seq<int>)
    requires RamMapped(flat, page) && Accessible(flat, va, va + |data|) && va % PGSIZE + |data| <= PGSIZE
             && UserAddr(flat, va)
    ensures Move(page, Frame(flat, va), va % PGSIZE, data) == Stored(flat, page, va, data)
    decreases |data|
  {
    var p, off := Frame(flat, va), va % PGSIZE;
    if data == [] {
      assert page[p] == page[p][..off] + data + page[p][off..];
    } else {
      var page1 := Store(flat, page, va, data[0]);
      assert page1[p] == page[p][..off] + [data[0]] + page[p][off + 1..];
      if |data| == 1 {
        assert data == [data[0]];
        assert data[1..] == [];
      } else {
        assert va + 1 < va + |data|;
        SamePage(va, 1);
        MoveStores(flat, page1, va + 1, data[1..]);
        assert page1[p][..off + 1] + data[1..] + page1[p][off + 1 + |data[1..]|..]
            == page[p][..off] + data + page[p][off + |data|..];
      }
    }
  }

  /** The addresses of one page are accessible together. */
  lemma PageAccess(flat: map<nat, Pte>, va: nat, len: nat)
    requires UserAddr(flat, va) && va % PGSIZE + len <= PGSIZE
    ensures Accessible(flat, va, va + len)
  {
    forall x: nat | va <= x < va + len ensures UserAddr(flat, x) {
      assert x / PGSIZE == va / PGSIZE;
    }
  }

  // ---------------------------------------------------------------- the operations

  /** walkaddr of the page of va, as a physical page number: 0 when user code has no access. */
  method WalkAddr(pt: PageTable, va: nat) returns (p: nat)
    requires pt.Valid()
    modifies pt`tables, pt`pos, pt.kmem
    ensures pt.Valid() && pt.State() == old(pt.State())
    ensures p == if UserAddr(pt.flat, va) then Frame(pt.flat, va) else 0
  {
    if va >= MAXVA { return 0; }
    var n := va / PGSIZE;
    var t := pt.Walk(n, false);
    assert FlatAt(pt.tables, pt.root, pt.flat, n);
    if t.None? { return 0; }
    var e := pt.tables[t.value][Split(n).i0];
    if !Present(e) || !UserOk(e) { return 0; }
    return e.ppn;
  }

  /** The bytes to move in this round: up to the end of the page, and no more than are left. */
  function Chunk(va: nat, left: nat): (n: nat)
    ensures left > 0 ==> 0 < n <= left && va % PGSIZE + n <= PGSIZE
    ensures n == left || (va + n) % PGSIZE == 0
  {
    var n := PGSIZE - va % PGSIZE;
    if n > left then left else n
  }

  /** How far a copy got: through the whole range, or up to the first address without access. */
  ghost predicate Stopped(flat: map<nat, Pte>, va: nat, len: nat, done: nat, ok: bool) {
    done <= len && Accessible(flat, va, va + done) && (if ok then done == len else done < len && !UserAddr(flat, va + done))
  }

  /** copyout: succeeds exactly when the whole range is accessible, and stores exactly the bytes before the
      first address that is not. */
  method CopyOut(pt: PageTable, dstva: nat, src: seq<int>) returns (ok: bool, ghost done: nat)
    requires pt.Valid() && RamMapped(pt.flat, pt.kmem.page)
    modifies pt`tables, pt`pos, pt.kmem
    ensures pt.Valid() && pt.tables == old(pt.tables) && pt.pos == old(pt.pos)
            && pt.kmem.freelist == old(pt.kmem.freelist)
    ensures Stopped(pt.flat, dstva, |src|, done, ok)
    ensures pt.kmem.page == Stored(pt.flat, old(pt.kmem.page), dstva, src[..done])
  {
    var i := 0;
    assert src[..0] == [];
    while i < |src|
      invariant i <= |src| && Accessible(pt.flat, dstva, dstva + i) && pt.Valid()
      invariant pt.tables == old(pt.tables) && pt.pos == old(pt.pos) && pt.kmem.freelist == old(pt.kmem.freelist)
      invariant pt.kmem.page == Stored(pt.flat, old(pt.kmem.page), dstva, src[..i])
    {
      var va := dstva + i;
      var p := WalkAddr(pt, va);
      if p == 0 { return false, i; }
      var n := Chunk(va, |src| - i);
      CopyOutStep(pt.flat, old(pt.kmem.page), pt.kmem.page, dstva, src, i, n);
      MovePage(pt, p, va % PGSIZE, src[i..i + n]);
      i := i + n;
    }
    assert src[..i] == src;
    return true, i;
  }

  /** memmove into a page of RAM. */
  method MovePage(pt: PageTable, p: nat, off: nat, data: seq<int>)
    requires pt.Valid() && p in pt.kmem.page && off + |data| <= PGSIZE
    modifies pt.kmem`page
    ensures pt.Valid() && pt.kmem.page == Move(old(pt.kmem.page), p, off, data)
  {
    pt.kmem.page := Move(pt.kmem.page, p, off, data);
  }

  lemma CopyOutStep(flat: map<nat, Pte>, page0: map<nat, Bytes>, page: map<nat, Bytes>, dstva: nat, src: seq<int>,
                    i: nat, n: nat)
    requires RamMapped(flat, page0) && i + n <= |src| && Accessible(flat, dstva, dstva + i) && UserAddr(flat, dstva + i)
    requires (dstva + i) % PGSIZE + n <= PGSIZE && page == Stored(flat, page0, dstva, src[..i])
    ensures Accessible(flat, dstva, dstva + (i + n)) && Frame(flat, dstva + i) in page
    ensures Move(page, Frame(flat, dstva + i), (dstva + i) % PGSIZE, src[i..i + n]) == Stored(flat, page0, dstva, src[..i + n])
  {
    var va := dstva + i;
    PageAccess(flat, va, n);
    assert src[..i + n] == src[..i] + src[i..i + n];
    StoredAppend(flat, page0, dstva, src[..i], src[i..i + n]);
    MoveStores(flat, page, va, src[i..i + n]);
  }

  /** copyin: the bytes user code would load, up to the first address without access. */
  method CopyIn(pt: PageTable, srcva: nat, len: nat) returns (ok: bool, dst: seq<int>)
    requires pt.Valid() && RamMapped(pt.flat, pt.kmem.page)
    modifies pt`tables, pt`pos, pt.kmem
    ensures pt.Valid() && pt.State() == old(pt.State())
    ensures Stopped(pt.flat, srcva, len, |dst|, ok)
    ensures dst == Loaded(pt.flat, pt.kmem.page, srcva, |dst|)
  {
    dst := [];
    while |dst| < len
      invariant |dst| <= len && pt.Valid() && pt.State() == old(pt.State())
      invariant Accessible(pt.flat, srcva, srcva + |dst|) && dst == Loaded(pt.flat, pt.kmem.page, srcva, |dst|)
    {
      var va := srcva + |dst|;
      var p := WalkAddr(pt, va);
      if p == 0 { return false, dst; }
      var n := Chunk(va, len - |dst|);
      var off := va % PGSIZE;
      CopyInStep(pt.flat, pt.kmem.page, srcva, dst, n);
      dst := dst + pt.kmem.page[p][off..off + n];
    }
    return true, dst;
  }

  lemma CopyInStep(flat: map<nat, Pte>, page: map<nat, Bytes>, srcva: nat, dst: seq<int>, n: nat)
    requires RamMapped(flat, page) && Accessible(flat, srcva, srcva + |dst|) && UserAddr(flat, srcva + |dst|)
    requires (srcva + |dst|) % PGSIZE + n <= PGSIZE && dst == Loaded(flat, page, srcva, |dst|)
    ensures var va := srcva + |dst|;
            var off := va % PGSIZE;
            && Accessible(flat, srcva, srcva + (|dst| + n)) && Frame(flat, va) in page
            && dst + page[Frame(flat, va)][off..off + n] == Loaded(flat, page, srcva, |dst| + n)
  {
    var va := srcva + |dst|;
    PageAccess(flat, va, n);
    var off := va % PGSIZE;
    var all := Loaded(flat, page, srcva, |dst| + n);
    forall i: nat | |dst| <= i < |dst| + n ensures all[i] == page[Frame(flat, va)][off..off + n][i - |dst|] {
      var j := i - |dst|;
      SamePage(va, j);
      assert srcva + i == va + j && UserAddr(flat, va + j);
      assert Frame(flat, va + j) == Frame(flat, va);
      assert all[i] == Load(flat, page, va + j) == page[Frame(flat, va)][off + j];
    }
  }

  lemma SamePage(va: nat, i: nat)
    requires va % PGSIZE + i < PGSIZE
    ensures (va + i) % PGSIZE == va % PGSIZE + i && (va + i) / PGSIZE == va / PGSIZE
  {
  }
}
