/** Giving an address space back: freewalk and uvmfree (kernel/vm.c). */
module VmFree {
  import opened Options
  import opened Collections
  import opened PageTableModel
  import opened Kalloc
  import opened Vm
  import opened VmGrow
  import opened UserVm

  /** The entry of the table at pp through which the table at qp is reached. */
  ghost function Via(pp: Pos, qp: Pos): (i: Option<nat>) {
    match pp
    case Root => (match qp case Root => None case Mid(i2) => Some(i2) case Low(i2, _) => Some(i2))
    case Mid(i2) => (match qp case Low(j2, j1) => if j2 == i2 then Some(j1) else None case _ => None)
    case Low(_, _) => None
  }

  /** The tables in the subtree of p. */
  ghost function Below(pos: map<nat, Pos>, p: nat): (r: set<nat>)
    requires p in pos
  {
    set q | q in pos && (q == p || Via(pos[p], pos[q]).Some?)
  }

  /** Those in the subtrees of its first i entries. */
  ghost function BelowUpTo(pos: map<nat, Pos>, p: nat, i: nat): (r: set<nat>)
    requires p in pos
  {
    set q | q in pos && Via(pos[p], pos[q]).Some? && Via(pos[p], pos[q]).value < i
  }

  ghost function Depth(p: Pos): (d: nat) {
    match p case Root => 2 case Mid(_) => 1 case Low(_, _) => 0
  }

  /** No level-0 table has a valid entry. */
  ghost predicate NoLeaves(m: Tables, pos: map<nat, Pos>) {
    forall p, i: nat | p in pos && p in m && pos[p].Low? && i < ENTRIES :: !Present(m[p][i])
  }

  /** An address space without translations has none. */
  lemma EmptyHasNoLeaves(s: Space, lo: nat, hi: nat)
    requires SpaceOk(s, lo, hi) && s.flat == map[]
    ensures NoLeaves(s.m, s.pos)
  {
    forall p, i: nat | p in s.pos && p in s.m && s.pos[p].Low? && i < ENTRIES
      ensures !Present(s.m[p][i])
    {
      assert ChildOk(s.m, s.root, s.pos, p);
      assert EntryOk(s.m, s.pos, s.root, s.pos[p].i2);
      var v := Vpn(s.pos[p].i2, s.pos[p].i1, i);
      SplitOnto(v);
      assert FlatAt(s.m, s.root, s.flat, Join(v));
    }
  }

  /** An absent entry has no subtree; a present one has that of its child. */
  lemma NextSubtree(m: Tables, root: nat, pos: map<nat, Pos>, p: nat, i: nat)
    requires Tree(m, root, pos) && NoLeaves(m, pos) && p in pos && i < ENTRIES
    ensures !Present(m[p][i]) ==> BelowUpTo(pos, p, i + 1) == BelowUpTo(pos, p, i)
    ensures Present(m[p][i]) ==> && Pointer(m[p][i]) && m[p][i].ppn in pos && Depth(pos[m[p][i].ppn]) < Depth(pos[p])
                                 && p !in Below(pos, m[p][i].ppn)
                                 && Below(pos, m[p][i].ppn) !! BelowUpTo(pos, p, i)
                                 && Below(pos, m[p][i].ppn) <= Below(pos, p)
                                 && BelowUpTo(pos, p, i + 1) == BelowUpTo(pos, p, i) + Below(pos, m[p][i].ppn)
  {
    assert EntryOk(m, pos, p, i);
    assert ChildOk(m, root, pos, p);
    forall q | q in pos && Via(pos[p], pos[q]) == Some(i)
      ensures Present(m[p][i]) && q in Below(pos, m[p][i].ppn)
    {
      assert ChildOk(m, root, pos, q);
    }
  }

  lemma AllSubtrees(m: Tables, root: nat, pos: map<nat, Pos>, p: nat)
    requires Tree(m, root, pos) && p in pos
    ensures Below(pos, p) == BelowUpTo(pos, p, ENTRIES) + {p} && p !in BelowUpTo(pos, p, ENTRIES)
  {
    forall q | q in pos && Via(pos[p], pos[q]).Some? ensures Via(pos[p], pos[q]).value < ENTRIES {
      assert ChildOk(m, root, pos, q);
    }
  }

  /** The whole tree is the subtree of its root. */
  lemma WholeTree(m: Tables, root: nat, pos: map<nat, Pos>)
    requires Tree(m, root, pos)
    ensures Below(pos, root) == m.Keys
  {
    forall q | q in pos && q != root ensures Via(Root, pos[q]).Some? {
      assert ChildOk(m, root, pos, q);
    }
  }

  /** The tables of set d have gone from m to the free list; the rest of m and the rest of RAM are untouched. */
  ghost predicate Released(m: Tables, fl: seq<nat>, page: map<nat, Bytes>, m': Tables, fl': seq<nat>,
                           page': map<nat, Bytes>, d: set<nat>) {
    && m' == m - d && Pool(fl') == Pool(fl) + d
    && (forall q | q in page && q !in d :: q in page' && page'[q] == page[q])
  }

  /** The subtree of one more entry of p, whose own page has been written to. */
  lemma ReleasedMore(m: Tables, fl: seq<nat>, page: map<nat, Bytes>, t1: Tables, fl1: seq<nat>, page1: map<nat, Bytes>,
                     t2: Tables, fl2: seq<nat>, page2: map<nat, Bytes>, d: set<nat>, e: set<nat>, p: nat, x: Table,
                     y: Table)
    requires Released(m, fl, page, t1[p := x], fl1, page1, d) && Released(t1, fl1, page1, t2, fl2, page2, e) && p !in e
    ensures Released(m, fl, page, t2[p := y][p := x], fl2, page2, d + e)
  {
    assert t2[p := y][p := x] == t1[p := x] - e;
    assert (m - d) - e == m - (d + e);
  }

  /** Last, the table p itself. */
  lemma ReleasedLast(m: Tables, fl: seq<nat>, page: map<nat, Bytes>, t: Tables, fl1: seq<nat>, page1: map<nat, Bytes>,
                     fl2: seq<nat>, d: set<nat>, p: nat, x: Table)
    requires Released(m, fl, page, t[p := x], fl1, page1, d) && p !in d && Pool(fl2) == Pool(fl1) + {p}
    ensures Released(m, fl, page, t - {p}, fl2, page1[p := Filled(1)], d + {p})
  {
    assert t - {p} == t[p := x] - {p};
    assert (m - d) - {p} == m - (d + {p});
  }

  /** freewalk: gives the table p and every table below it back to the allocator, each once. */
  method FreeWalk(pt: PageTable, p: nat, ghost m0: Tables, ghost pos: map<nat, Pos>)
    requires pt.kmem.Valid() && Tree(m0, pt.root, pos) && NoLeaves(m0, pos) && p in pos
    requires forall q | q in Below(pos, p) :: && q in pt.tables && pt.tables[q] == m0[q]
                                              && pt.kmem.lo <= q < pt.kmem.hi && q !in pt.kmem.freelist
    modifies pt`tables, pt.kmem
    ensures pt.kmem.Valid()
    ensures Released(old(pt.tables), old(pt.kmem.freelist), old(pt.kmem.page), pt.tables, pt.kmem.freelist, pt.kmem.page, Below(pos, p))
    decreases Depth(pos[p])
  {
    for i := 0 to ENTRIES
      invariant pt.kmem.Valid() && p in pt.tables
      invariant forall j | i <= j < ENTRIES :: pt.tables[p][j] == m0[p][j]
      invariant Released(old(pt.tables), old(pt.kmem.freelist), old(pt.kmem.page), pt.tables[p := m0[p]], pt.kmem.freelist, pt.kmem.page,
                         BelowUpTo(pos, p, i))
    {
      NextSubtree(m0, pt.root, pos, p, i);
      var pte := pt.tables[p][i];
      if Pointer(pte) {
        FreeChild(pt, p, i, m0, pos, old(pt.tables), old(pt.kmem.freelist), old(pt.kmem.page));
      }
    }
    AllSubtrees(m0, pt.root, pos, p);
    assert p !in Pool(pt.kmem.freelist);
    ghost var fl1, page1 := pt.kmem.freelist, pt.kmem.page;
    pt.kmem.Kfree(p);
    ReleasedLast(old(pt.tables), old(pt.kmem.freelist), old(pt.kmem.page), pt.tables, fl1, page1, pt.kmem.freelist,
                 BelowUpTo(pos, p, ENTRIES), p, m0[p]);
    pt.tables := pt.tables - {p};
  }

  /** One entry of freewalk: the child's subtree, then the entry itself. */
  method FreeChild(pt: PageTable, p: nat, i: nat, ghost m0: Tables, ghost pos: map<nat, Pos>, ghost m1: Tables,
                   ghost fl1: seq<nat>, ghost page1: map<nat, Bytes>)
    requires pt.kmem.Valid() && Tree(m0, pt.root, pos) && NoLeaves(m0, pos) && p in pos && i < ENTRIES && p in pt.tables
    requires forall j | i <= j < ENTRIES :: pt.tables[p][j] == m0[p][j]
    requires Present(m0[p][i])
    requires forall q | q in Below(pos, p) :: q in m1 && m1[q] == m0[q] && pt.kmem.lo <= q < pt.kmem.hi && q !in fl1
    requires Released(m1, fl1, page1, pt.tables[p := m0[p]], pt.kmem.freelist, pt.kmem.page, BelowUpTo(pos, p, i))
    modifies pt`tables, pt.kmem
    ensures pt.kmem.Valid() && p in pt.tables && pt.tables[p][i] == ZERO
    ensures forall j | i + 1 <= j < ENTRIES :: pt.tables[p][j] == m0[p][j]
    ensures Released(m1, fl1, page1, pt.tables[p := m0[p]], pt.kmem.freelist, pt.kmem.page, BelowUpTo(pos, p, i + 1))
    decreases Depth(pos[p]), 0
  {
    NextSubtree(m0, pt.root, pos, p, i);
    var child := pt.tables[p][i].ppn;
    forall q | q in Below(pos, child)
      ensures q in pt.tables && pt.tables[q] == m0[q] && q !in pt.kmem.freelist
    {
      assert q !in Pool(pt.kmem.freelist);
      assert q in pt.tables[p := m0[p]];
    }
    ghost var t1, fl2, page2 := pt.tables, pt.kmem.freelist, pt.kmem.page;
    FreeWalk(pt, child, m0, pos);
    var row := pt.tables[p][i := ZERO];
    ReleasedMore(m1, fl1, page1, t1, fl2, page2, pt.tables, pt.kmem.freelist, pt.kmem.page,
                 BelowUpTo(pos, p, i), Below(pos, child), p, m0[p], row);
    pt.tables := pt.tables[p := row];
  }

  // ---------------------------------------------------------------- uvmfree

  lemma {:induction false} DataCount(s: Space, lo: nat, hi: nat, k: nat)
    requires Freeable(s, lo, hi, 0, k)
    ensures |DataPages(s, 0, k)| == k
    ensures DataPages(s, 0, k) !! Pool(s.fl) && DataPages(s, 0, k) !! s.m.Keys
  {
    if k > 0 {
      DataCount(s, lo, hi, k - 1);
      assert FreeablePage(s, lo, hi, k - 1);
      DataDiffers(s, k - 1, PhysOf(s, k - 1));
    }
  }

  lemma {:induction false} DataDiffers(s: Space, k: nat, p: nat)
    requires forall n: nat | n < k :: PhysOf(s, n) != p
    ensures p !in DataPages(s, 0, k)
  {
    if k > 0 { DataDiffers(s, k - 1, p); }
  }

  /** Only pages below count are mapped, each to a page of its own that may be freed. */
  ghost predicate Disposable(s: Space, lo: nat, hi: nat, count: nat) {
    AllLeaves(s, 0, count) && Freeable(s, lo, hi, 0, count) && forall n | n in s.flat :: n < count
  }

  lemma UnmappedAll(s: Space, s1: Space, lo: nat, hi: nat, count: nat)
    requires Disposable(s, lo, hi, count) && UnmapDone(s, s1, 0, count, true)
    ensures s1.flat == map[] && Pool(s1.fl) == Pool(s.fl) + DataPages(s, 0, count) && s1.m.Keys == s.m.Keys
  {
    PoolPushed(s, 0, count);
    forall n: nat ensures n !in s1.flat {
      assert s1.At(n) == if n < count then None else s.At(n);
    }
  }

  /** The free list grew by the data pages and the table pages, each of them once. */
  lemma AllReturned(s: Space, fl: seq<nat>, lo: nat, hi: nat, count: nat)
    requires SpaceOk(s, lo, hi) && Disposable(s, lo, hi, count) && Distinct(s.fl) && Distinct(fl)
    requires Pool(fl) == Pool(s.fl) + DataPages(s, 0, count) + s.m.Keys
    ensures |fl| == |s.fl| + count + |s.m|
  {
    DataCount(s, lo, hi, count);
    PoolSize(s.fl);
    PoolSize(fl);
    assert Pool(s.fl) !! s.m.Keys;
    assert |s.m| == |s.m.Keys|;
  }

  /** freewalk from the root of an address space without translations. */
  method FreeTables(pt: PageTable)
    requires pt.Valid() && pt.flat == map[]
    modifies pt`tables, pt.kmem
    ensures pt.kmem.Valid() && pt.tables == map[]
    ensures Pool(pt.kmem.freelist) == Pool(old(pt.kmem.freelist)) + old(pt.tables).Keys
  {
    ghost var m0 := pt.tables;
    EmptyHasNoLeaves(pt.State(), pt.kmem.lo, pt.kmem.hi);
    WholeTree(m0, pt.root, pt.pos);
    FreeWalk(pt, pt.root, m0, pt.pos);
    assert m0 - m0.Keys == map[];
  }

  /** uvmfree: every data page and every page-table page is on the free list afterwards, each once. A mapping
      at or above sz is a panic in freewalk. */
  method UvmFree(pt: PageTable, sz: nat)
    requires pt.Valid() && sz <= MAXVA && Disposable(pt.State(), pt.kmem.lo, pt.kmem.hi, Pages(sz))
    modifies pt`tables, pt`pos, pt`flat, pt.kmem
    ensures pt.kmem.Valid() && pt.tables == map[]
    ensures Pool(pt.kmem.freelist) ==
            Pool(old(pt.kmem.freelist)) + DataPages(old(pt.State()), 0, Pages(sz)) + old(pt.tables).Keys
    ensures |pt.kmem.freelist| == |old(pt.kmem.freelist)| + Pages(sz) + |old(pt.tables)|
  {
    ghost var s := pt.State();
    PagesMonotone(sz, MAXVA);
    UnmapNothing(s, 0, true);
    if sz > 0 {
      pt.UvmUnmap(0, Pages(sz), true);
    }
    UnmappedAll(s, pt.State(), pt.kmem.lo, pt.kmem.hi, Pages(sz));
    FreeTables(pt);
    AllReturned(s, pt.kmem.freelist, pt.kmem.lo, pt.kmem.hi, Pages(sz));
  }
}
