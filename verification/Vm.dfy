/** The page-table code of kernel/vm.c over the tree of PageTableModel and the free list of Kalloc. */
module Vm {
  import opened Options
  import opened Collections
  import opened Params
  import opened PageTableModel
  import opened Kalloc

  // ---------------------------------------------------------------- the flat view

  /** The flat map says of page n what the walk through the tree says. */
  predicate FlatAt(m: Tables, root: nat, flat: map<nat, Pte>, n: nat)
    requires root in m && n < MAXVPN
  {
    Lookup(m, root, Split(n)) == if n in flat then Some(flat[n]) else None
  }

  /** The three-level tree refines the flat map from page number to entry. */
  predicate Refines(m: Tables, root: nat, flat: map<nat, Pte>)
    requires root in m
  {
    && (forall n: nat {:trigger FlatAt(m, root, flat, n)} | n < MAXVPN :: FlatAt(m, root, flat, n))
    && (forall n | n in flat :: n < MAXVPN)
  }

  lemma SetLeafRefines(m: Tables, root: nat, pos: map<nat, Pos>, flat: map<nat, Pte>, n: nat, e: Pte)
    requires Tree(m, root, pos) && Refines(m, root, flat) && n < MAXVPN && Table0(m, root, Split(n)).Some?
    ensures Table0(m, root, Split(n)).value in m
    ensures var m' := SetLeaf(m, Table0(m, root, Split(n)).value, Split(n).i0, e);
            root in m' && Refines(m', root, if Present(e) then flat[n := e] else flat - {n})
  {
    TablesOnPath(m, root, pos, Split(n));
    var m' := SetLeaf(m, Table0(m, root, Split(n)).value, Split(n).i0, e);
    var flat' := if Present(e) then flat[n := e] else flat - {n};
    forall k: nat | k < MAXVPN
      ensures FlatAt(m', root, flat', k)
    {
      assert FlatAt(m, root, flat, k);
      SetLeafLookup(m, root, pos, Split(n), e, Split(k));
      if Split(k) == Split(n) { SplitInjective(k, n); }
    }
  }

  lemma AddTableRefines(m: Tables, root: nat, pos: map<nat, Pos>, flat: map<nat, Pte>, t: nat, i: nat, q: nat)
    requires Tree(m, root, pos) && Refines(m, root, flat)
    requires t in m && i < ENTRIES && q !in m && !Present(m[t][i]) && !pos[t].Low?
    ensures root in AddTable(m, t, i, q) && Refines(AddTable(m, t, i, q), root, flat)
  {
    forall n: nat | n < MAXVPN
      ensures FlatAt(AddTable(m, t, i, q), root, flat, n)
    {
      assert FlatAt(m, root, flat, n);
      AddTableLookup(m, root, pos, t, i, q, Split(n));
    }
  }

  function PX(level: nat, v: Vpn): (i: nat) {
    if level == 2 then v.i2 else if level == 1 then v.i1 else v.i0
  }

  /** perm | PTE_V. */
  function WithV(perm: nat): (f: nat)
    ensures VBit(f) && f / 2 == perm / 2
  {
    if perm % 2 == 1 then perm else perm + 1
  }

  /** Table pages have only been added, taken from the front of the free list. */
  ghost predicate Extended(m: Tables, pos: map<nat, Pos>, fl: seq<nat>, m': Tables, pos': map<nat, Pos>,
                           fl': seq<nat>) {
    && (forall p | p in m && p in pos :: p in m' && p in pos' && pos'[p] == pos[p])
    && |fl'| <= |fl| && fl' == fl[|fl| - |fl'|..]
    && m'.Keys == m.Keys + Pool(fl[..|fl| - |fl'|])
  }

  /** What is taken from a list in two goes. */
  lemma TakenTwice(fl: seq<nat>, fl1: seq<nat>, fl2: seq<nat>)
    requires |fl2| <= |fl1| <= |fl| && fl1 == fl[|fl| - |fl1|..] && fl2 == fl1[|fl1| - |fl2|..]
    ensures fl2 == fl[|fl| - |fl2|..]
    ensures Pool(fl[..|fl| - |fl2|]) == Pool(fl[..|fl| - |fl1|]) + Pool(fl1[..|fl1| - |fl2|])
  {
    var a, b := |fl| - |fl1|, |fl| - |fl2|;
    assert fl1[..b - a] == fl[a..b];
    assert fl[..b] == fl[..a] + fl[a..b];
  }

  lemma ExtendedTrans(m: Tables, pos: map<nat, Pos>, fl: seq<nat>, m1: Tables, pos1: map<nat, Pos>, fl1: seq<nat>,
                      m2: Tables, pos2: map<nat, Pos>, fl2: seq<nat>)
    requires Extended(m, pos, fl, m1, pos1, fl1) && Extended(m1, pos1, fl1, m2, pos2, fl2)
    ensures Extended(m, pos, fl, m2, pos2, fl2)
  {
    TakenTwice(fl, fl1, fl2);
  }

  /** The contents of pages that were not free have not changed. */
  ghost predicate PagesKept(page: map<nat, Bytes>, fl: seq<nat>, page': map<nat, Bytes>) {
    forall p | p in page && p !in fl :: p in page' && page'[p] == page[p]
  }

  /** A page table with the flat map it stands for, the free list and the pages of RAM. */
  datatype Space = Space(m: Tables, root: nat, pos: map<nat, Pos>, flat: map<nat, Pte>, fl: seq<nat>, page: map<nat, Bytes>) {
    function At(n: nat): (e: Option<Pte>) { if n in flat then Some(flat[n]) else None }
  }

  /** The table pages form a tree that refines the flat map, and are not free. */
  ghost predicate SpaceOk(s: Space, lo: nat, hi: nat) {
    && Tree(s.m, s.root, s.pos) && s.root in s.m && Refines(s.m, s.root, s.flat)
    && forall p | p in s.m :: lo <= p < hi && p !in s.fl
  }

  /** s' has the translations of s; it may have more table pages, taken from the free list. */
  ghost predicate Walked(s: Space, s': Space) {
    && s'.root == s.root && s'.flat == s.flat
    && Extended(s.m, s.pos, s.fl, s'.m, s'.pos, s'.fl) && PagesKept(s.page, s.fl, s'.page)
  }

  lemma WalkedTrans(s: Space, s1: Space, s2: Space)
    requires Walked(s, s1) && Walked(s1, s2)
    ensures Walked(s, s2)
  {
    ExtendedTrans(s.m, s.pos, s.fl, s1.m, s1.pos, s1.fl, s2.m, s2.pos, s2.fl);
  }

  lemma WalkedSelf(s: Space)
    ensures Walked(s, s)
  {
    assert s.fl[..0] == [];
  }

  /** Taking the first free page q for a new table. */
  lemma TableAdded(s: Space, lo: nat, hi: nat, t: nat, i: nat, at: Pos, page': map<nat, Bytes>)
    requires SpaceOk(s, lo, hi) && t in s.m && t in s.pos && i < ENTRIES && |s.fl| > 0 && Distinct(s.fl)
             && lo <= s.fl[0] < hi
    requires !Present(s.m[t][i]) && PagesKept(s.page, s.fl, page')
    requires (s.pos[t] == Root && at == Mid(i) && i < ENTRIES / 2) || (s.pos[t].Mid? && at == Low(s.pos[t].i2, i))
    ensures var q := s.fl[0];
            var s' := Space(AddTable(s.m, t, i, q), s.root, s.pos[q := at], s.flat, s.fl[1..], page');
            && SpaceOk(s', lo, hi) && Walked(s, s')
            && t != q && q in s'.m && t in s'.m && Present(s'.m[t][i]) && s'.m[t][i].ppn == q
            && forall p | p in s.m && p != t :: p in s'.m && s'.m[p] == s.m[p]
  {
    var q := s.fl[0];
    assert q in s.fl && s.fl[..1] == [q];
    AddTableTree(s.m, s.root, s.pos, t, i, q, at);
    AddTableRefines(s.m, s.root, s.pos, s.flat, t, i, q);
    PoolPop(s.fl);
  }

  /** From s to s' exactly the pages lo .. lo + k were mapped, to consecutive pages from ppn. */
  ghost predicate MapDone(s: Space, s': Space, lo: nat, k: nat, ppn: nat, flags: nat) {
    && s'.root == s.root
    && (forall n: nat :: s'.At(n) == if lo <= n < lo + k then Some(Pte(ppn + (n - lo), flags)) else s.At(n))
    && Extended(s.m, s.pos, s.fl, s'.m, s'.pos, s'.fl) && PagesKept(s.page, s.fl, s'.page)
  }

  lemma MapNothing(s: Space, lo: nat, ppn: nat, flags: nat)
    ensures MapDone(s, s, lo, 0, ppn, flags)
  {
    assert s.fl[..0] == [];
  }

  /** Writing page n's leaf in a space that walk has prepared. */
  lemma LeafSet(s: Space, lo: nat, hi: nat, n: nat, e: Pte)
    requires SpaceOk(s, lo, hi) && n < MAXVPN && Table0(s.m, s.root, Split(n)).Some?
    ensures var t := Table0(s.m, s.root, Split(n)).value;
            && t in s.m && t in s.pos
            && var s' := s.(m := SetLeaf(s.m, t, Split(n).i0, e), flat := if Present(e) then s.flat[n := e] else s.flat - {n});
               SpaceOk(s', lo, hi) && s'.m.Keys == s.m.Keys
  {
    var t := Table0(s.m, s.root, Split(n)).value;
    TablesOnPath(s.m, s.root, s.pos, Split(n));
    SetLeafTree(s.m, s.root, s.pos, t, Split(n).i0, e);
    SetLeafRefines(s.m, s.root, s.pos, s.flat, n, e);
  }

  lemma MapOneMore(s: Space, s1: Space, s2: Space, s3: Space, lo: nat, k: nat, ppn: nat, flags: nat, a: nat, e: Pte)
    requires a == lo + k && e == Pte(ppn + k, flags)
    requires MapDone(s, s1, lo, k, ppn, flags) && Walked(s1, s2)
    requires s3.root == s2.root && s3.pos == s2.pos && s3.fl == s2.fl && s3.page == s2.page
    requires s3.flat == s2.flat[a := e] && s3.m.Keys == s2.m.Keys
    ensures MapDone(s, s3, lo, k + 1, ppn, flags)
  {
    ExtendedTrans(s.m, s.pos, s.fl, s1.m, s1.pos, s1.fl, s2.m, s2.pos, s2.fl);
    forall n: nat
      ensures s3.At(n) == if lo <= n < lo + k + 1 then Some(Pte(ppn + (n - lo), flags)) else s.At(n)
    {
      assert s1.At(n) == if lo <= n < lo + k then Some(Pte(ppn + (n - lo), flags)) else s.At(n);
    }
  }

  lemma MapThenWalk(s: Space, s1: Space, s2: Space, lo: nat, k: nat, ppn: nat, flags: nat)
    requires MapDone(s, s1, lo, k, ppn, flags) && Walked(s1, s2)
    ensures MapDone(s, s2, lo, k, ppn, flags)
  {
    ExtendedTrans(s.m, s.pos, s.fl, s1.m, s1.pos, s1.fl, s2.m, s2.pos, s2.fl);
    forall n: nat
      ensures s2.At(n) == if lo <= n < lo + k then Some(Pte(ppn + (n - lo), flags)) else s.At(n)
    {
      assert s1.At(n) == s2.At(n);
    }
  }

  // ---------------------------------------------------------------- unmapping

  /** Page n is mapped by a leaf entry. */
  ghost predicate Leaf(s: Space, n: nat) {
    n in s.flat && s.flat[n].flags != PTE_V
  }

  /** The physical page of a mapped page. */
  ghost function PhysOf(s: Space, n: nat): (p: nat) {
    if n in s.flat then s.flat[n].ppn else 0
  }

  /** The physical page of n may be freed: it is RAM, not free already and not a table. */
  ghost predicate FreeablePage(s: Space, lo: nat, hi: nat, n: nat) {
    lo <= PhysOf(s, n) < hi && PhysOf(s, n) !in s.fl && PhysOf(s, n) !in s.m
  }

  ghost predicate Injective(s: Space, a: nat, k: nat) {
    forall n, n' {:trigger PhysOf(s, n), PhysOf(s, n')} | a <= n < n' < a + k :: PhysOf(s, n) != PhysOf(s, n')
  }

  /** The first k pages from a are mapped, each to a page of its own that may be freed. */
  ghost predicate Freeable(s: Space, lo: nat, hi: nat, a: nat, k: nat) {
    && Injective(s, a, k)
    && forall n: nat | a <= n < a + k :: FreeablePage(s, lo, hi, n)
  }

  /** The free list after freeing the pages of a .. a + k in order. */
  ghost function Pushed(s: Space, a: nat, k: nat): (fl: seq<nat>) {
    if k == 0 then s.fl else [PhysOf(s, a + k - 1)] + Pushed(s, a, k - 1)
  }

  lemma {:induction false} PushedHolds(s: Space, a: nat, k: nat, p: nat)
    ensures p in Pushed(s, a, k) <==> p in s.fl || exists n: nat :: a <= n < a + k && PhysOf(s, n) == p
  {
    if k > 0 {
      PushedHolds(s, a, k - 1, p);
      assert a <= a + k - 1 < a + k;
    }
  }

  /** From s to s' exactly the pages a .. a + k lost their translation, and their physical pages were
      put on the free list if free says so. */
  ghost predicate UnmapDone(s: Space, s': Space, a: nat, k: nat, free: bool) {
    && s'.root == s.root && (forall n: nat :: s'.At(n) == if a <= n < a + k then None else s.At(n))
    && s'.m.Keys == s.m.Keys && s'.pos == s.pos
    && s'.fl == (if free then Pushed(s, a, k) else s.fl) && PagesKept(s.page, s'.fl, s'.page)
  }

  lemma UnmapNothing(s: Space, a: nat, free: bool)
    ensures UnmapDone(s, s, a, 0, free)
  {
  }

  ghost predicate AllLeaves(s: Space, a: nat, k: nat) {
    forall n: nat | a <= n < a + k :: Leaf(s, n)
  }

  lemma UnmapOneMore(s: Space, s1: Space, s2: Space, a: nat, k: nat, free: bool, n: nat)
    requires UnmapDone(s, s1, a, k, free) && n == a + k
    requires s2.root == s.root && s2.flat == s1.flat - {n} && s2.m.Keys == s1.m.Keys && s2.pos == s1.pos
    requires s2.fl == if free then [PhysOf(s, n)] + s1.fl else s1.fl
    requires PagesKept(s1.page, s2.fl, s2.page)
    ensures UnmapDone(s, s2, a, k + 1, free)
  {
    forall n: nat
      ensures s2.At(n) == if a <= n < a + k + 1 then None else s.At(n)
    {
      assert s1.At(n) == if a <= n < a + k then None else s.At(n);
    }
  }

  /** The next page to unmap still has the entry it began with, and freeing its page is allowed. */
  lemma UnmapNext(s: Space, s1: Space, lo: nat, hi: nat, a: nat, k: nat, total: nat, free: bool)
    requires UnmapDone(s, s1, a, k, free) && k < total && Leaf(s, a + k)
    requires free ==> Freeable(s, lo, hi, a, total)
    ensures s1.At(a + k) == s.At(a + k) && Leaf(s1, a + k) && PhysOf(s1, a + k) == PhysOf(s, a + k)
    ensures free ==> FreeablePage(s1, lo, hi, a + k)
  {
    assert s1.At(a + k) == s.At(a + k);
    if free {
      assert FreeablePage(s, lo, hi, a + k);
      PushedHolds(s, a, k, PhysOf(s, a + k));
    }
  }

  /** The entry walk finds for a mapped page is the one the flat map has. */
  lemma WalkFinds(s: Space, lo: nat, hi: nat, n: nat)
    requires SpaceOk(s, lo, hi) && n < MAXVPN && n in s.flat
    ensures Table0(s.m, s.root, Split(n)).Some?
    ensures var t := Table0(s.m, s.root, Split(n)).value; t in s.m && s.m[t][Split(n).i0] == s.flat[n]
  {
    assert FlatAt(s.m, s.root, s.flat, n);
  }

  /** The tables that are not there on the way to page n. */
  ghost function Missing(s: Space, n: nat): (k: nat)
    requires s.root in s.m
  {
    if Table1(s.m, s.root, Split(n)).None? then 2 else if Table0(s.m, s.root, Split(n)).None? then 1 else 0
  }

  /** There are pages enough for them. */
  ghost predicate Affords(s: Space, n: nat) {
    s.root in s.m && |s.fl| >= Missing(s, n)
  }

  /** What one level of walk does, at entry i of table t. It takes a page exactly for a table that is not there, and comes
      back without one exactly where it is not to allocate or no page is free; no translation changes. */
  ghost predicate Descended(s: Space, s': Space, t: nat, i: nat, alloc: bool, at: Pos, r: Option<nat>)
    requires t in s.m && i < ENTRIES
  {
    var there := Present(s.m[t][i]);
    && (r.None? <==> !there && (!alloc || s.fl == [])) && (r.None? || !alloc || there ==> s' == s)
    && (r.Some? ==> && t in s'.m && Present(s'.m[t][i]) && s'.m[t][i].ppn == r.value
                    && r.value in s'.m && r.value in s'.pos && s'.pos[r.value] == at)
    && (r.Some? && !there ==> |s'.fl| == |s.fl| - 1 && s'.m[r.value] == Blank())
    && (forall p | p in s.m && p != t :: p in s'.m && s'.m[p] == s.m[p])
    && Walked(s, s')
  }

  /** The pages that walk, which began in s0 and is at table t of a level, has taken. */
  ghost predicate WalkCost(s0: Space, s: Space, n: nat, level: nat, t: nat) {
    && s0.root in s0.m
    && var v, taken := Split(n), |s0.fl| - |s.fl|;
       if level == 2 then s == s0 && t == s0.root
       else if level == 1 then
         && t in s.m && taken == (if Table1(s0.m, s0.root, v).None? then 1 else 0)
         && (Present(s.m[t][v.i1]) <==> Table0(s0.m, s0.root, v).Some?)
       else taken == Missing(s0, n)
  }

  /** One level of walk takes a page exactly if the table is not there. */
  lemma WalkCostStep(s0: Space, s1: Space, s: Space, n: nat, level: nat, t: nat, c: nat)
    requires WalkCost(s0, s1, n, level, t) && 1 <= level <= 2 && t in s1.m && Tree(s0.m, s0.root, s0.pos)
    requires var i := PX(level, Split(n));
             if Present(s1.m[t][i]) then s == s1 && c == s1.m[t][i].ppn
             else |s1.fl| > 0 && |s.fl| == |s1.fl| - 1 && c in s.m && s.m[c] == Blank()
    ensures WalkCost(s0, s, n, level - 1, c)
  {
    TablesOnPath(s0.m, s0.root, s0.pos, Split(n));
  }

  /** walk stops short exactly where pages were too few. */
  lemma WalkStuck(s0: Space, s: Space, n: nat, level: nat, t: nat)
    requires WalkCost(s0, s, n, level, t) && 1 <= level <= 2 && t in s.m && !Present(s.m[t][PX(level, Split(n))])
    requires s.fl == []
    ensures |s0.fl| < Missing(s0, n)
  {
  }

  /** A walk to page n that began in s0 has come to table t of a level. */
  ghost predicate Walking(s0: Space, s: Space, n: nat, level: nat, t: nat, alloc: bool) {
    && Walked(s0, s) && OnPath(s.m, s.root, s.pos, Split(n), level, t) && WalkCost(s0, s, n, level, t)
    && (!alloc ==> s == s0)
  }

  /** What walk promises. It finds the level-0 table there is for page n, and changes no translation. With alloc it takes
      exactly the pages for the tables that are missing and fails exactly for want of one of them; without, it changes
      nothing. */
  ghost predicate WalkDone(s0: Space, s: Space, n: nat, alloc: bool, r: Option<nat>) {
    && s0.root in s0.m && s.root in s.m
    && var found := Table0(s.m, s.root, Split(n));
       && Walked(s0, s) && r == found && (r.Some? ==> r.value in s.m && r.value in s.pos && s.pos[r.value].Low?)
       && (if alloc then r.Some? == Affords(s0, n) else s == s0) && (r.None? && alloc ==> s.fl == [])
       && (r.Some? ==> |s.fl| == |s0.fl| - Missing(s0, n))
  }

  lemma WalkBegins(s: Space, lo: nat, hi: nat, n: nat, alloc: bool)
    requires SpaceOk(s, lo, hi) && n < MAXVPN
    ensures Walking(s, s, n, 2, s.root, alloc)
  {
  }

  lemma WalkEnds(s0: Space, s: Space, lo: nat, hi: nat, n: nat, t: nat, alloc: bool)
    requires SpaceOk(s0, lo, hi) && Walking(s0, s, n, 0, t, alloc)
    ensures WalkDone(s0, s, n, alloc, Some(t))
  {
    TablesOnPath(s0.m, s0.root, s0.pos, Split(n));
  }

  /** A level whose table is there, or was made. */
  lemma LevelFound(s0: Space, s1: Space, s: Space, lo: nat, hi: nat, n: nat, level: nat, t: nat, alloc: bool, c: nat)
    requires SpaceOk(s0, lo, hi) && SpaceOk(s1, lo, hi) && SpaceOk(s, lo, hi) && 1 <= level <= 2
    requires Walking(s0, s1, n, level, t, alloc)
    requires var v := Split(n);
             Descended(s1, s, t, PX(level, v), alloc, if level == 2 then Mid(v.i2) else Low(v.i2, v.i1), Some(c))
    ensures Walking(s0, s, n, level - 1, c, alloc)
  {
    var v := Split(n);
    PathEntry(s1.m, s1.root, s1.pos, v, level, t);
    WalkedTrans(s0, s1, s);
    PathStep(s1.m, s.m, s.root, s1.pos, s.pos, v, level, t, c);
    WalkCostStep(s0, s1, s, n, level, t, c);
  }

  /** A level at which walk gives up. */
  lemma LevelStuck(s0: Space, s: Space, lo: nat, hi: nat, n: nat, level: nat, t: nat, alloc: bool)
    requires SpaceOk(s0, lo, hi) && SpaceOk(s, lo, hi) && 1 <= level <= 2 && Walking(s0, s, n, level, t, alloc)
    requires !Present(s.m[t][PX(level, Split(n))]) && (!alloc || s.fl == [])
    ensures WalkDone(s0, s, n, alloc, None)
  {
    PathEntry(s.m, s.root, s.pos, Split(n), level, t);
    if alloc { WalkStuck(s0, s, n, level, t); }
  }

  class PageTable {
    const kmem: Kmem
    var root: nat
    var tables: Tables
    ghost var pos: map<nat, Pos>
    ghost var flat: map<nat, Pte>      // what the tree translates

    ghost function State(): (s: Space)
      reads this, kmem
    {
      Space(tables, root, pos, flat, kmem.freelist, kmem.page)
    }

    ghost predicate Valid()
      reads this, kmem
    {
      kmem.Valid() && SpaceOk(State(), kmem.lo, kmem.hi)
    }

    /** uvmcreate on a page already obtained from kalloc. */
    constructor (kmem: Kmem, page: nat)
      requires kmem.Valid() && kmem.lo <= page < kmem.hi && page !in kmem.freelist
      ensures this.kmem == kmem && Valid() && root == page && tables == map[page := Blank()]
      ensures flat == map[]
    {
      this.kmem, root := kmem, page;
      tables, pos, flat := map[page := Blank()], map[page := Root], map[];
      new;
      forall p, i: nat | p in pos && i < ENTRIES ensures EntryOk(tables, pos, p, i) { }
      forall q | q in pos ensures ChildOk(tables, root, pos, q) { }
      forall n: nat | n < MAXVPN ensures FlatAt(tables, root, flat, n) { }
    }

    /** One level of walk: the next table, made on demand if alloc. */
    method Descend(t: nat, i: nat, alloc: bool, ghost at: Pos) returns (r: Option<nat>)
      requires Valid() && t in tables && t in pos && i < ENTRIES
      requires (pos[t] == Root && at == Mid(i) && i < ENTRIES / 2) || (pos[t].Mid? && at == Low(pos[t].i2, i))
      modifies this`tables, this`pos, kmem
      ensures Valid() && Descended(old(State()), State(), t, i, alloc, at, r)
    {
      WalkedSelf(State());
      assert EntryOk(tables, pos, t, i);
      if Present(tables[t][i]) {
        return Some(tables[t][i].ppn);
      }
      if !alloc { return None; }
      var q := kmem.Kalloc();
      if q.None? { return None; }
      TableAdded(old(State()), kmem.lo, kmem.hi, t, i, at, kmem.page);
      tables, pos := AddTable(tables, t, i, q.value), pos[q.value := at];
      return q;
    }

    /** One level of a walk to page n that began in s0. */
    method WalkLevel(n: nat, level: nat, t: nat, alloc: bool, ghost s0: Space) returns (c: Option<nat>)
      requires Valid() && n < MAXVPN && 1 <= level <= 2
      requires SpaceOk(s0, kmem.lo, kmem.hi) && Walking(s0, State(), n, level, t, alloc)
      modifies this`tables, this`pos, kmem
      ensures Valid()
      ensures if c.Some? then Walking(s0, State(), n, level - 1, c.value, alloc) else WalkDone(s0, State(), n, alloc, c)
    {
      ghost var s1 := State();
      var v := Split(n);
      c := Descend(t, PX(level, v), alloc, if level == 2 then Mid(v.i2) else Low(v.i2, v.i1));
      if c.Some? {
        LevelFound(s0, s1, State(), kmem.lo, kmem.hi, n, level, t, alloc, c.value);
      } else {
        LevelStuck(s0, s1, kmem.lo, kmem.hi, n, level, t, alloc);
      }
    }

    /** walk: the level-0 table for page n, made on demand if alloc. Failing, it may leave the level-1 table it had
        made. */
    method Walk(n: nat, alloc: bool) returns (r: Option<nat>)
      requires Valid() && n < MAXVPN
      modifies this`tables, this`pos, kmem
      ensures Valid() && WalkDone(old(State()), State(), n, alloc, r)
    {
      var level, t := 2, root;
      ghost var s0 := State();
      WalkBegins(s0, kmem.lo, kmem.hi, n, alloc);
      while level > 0
        invariant level <= 2 && Valid() && Walking(s0, State(), n, level, t, alloc)
      {
        var c := WalkLevel(n, level, t, alloc, s0);
        if c.None? {
          return None;
        }
        t, level := c.value, level - 1;
      }
      WalkEnds(s0, State(), kmem.lo, kmem.hi, n, t, alloc);
      return Some(t);
    }

    /** Writes the leaf of page n, whose tables exist. */
    method SetPage(n: nat, t: nat, e: Pte)
      requires Valid() && n < MAXVPN && root in tables && Table0(tables, root, Split(n)) == Some(t) && Present(e)
      modifies this`tables, this`flat
      ensures Valid() && tables.Keys == old(tables).Keys && flat == old(flat)[n := e]
    {
      LeafSet(State(), kmem.lo, kmem.hi, n, e);
      tables := SetLeaf(tables, t, Split(n).i0, e);
      flat := flat[n := e];
    }

    /** Clears the leaf of page n, whose tables exist. */
    method ClearPage(n: nat, t: nat)
      requires Valid() && n < MAXVPN && root in tables && Table0(tables, root, Split(n)) == Some(t)
      modifies this`tables, this`flat
      ensures Valid() && tables.Keys == old(tables).Keys && flat == old(flat) - {n}
    {
      LeafSet(State(), kmem.lo, kmem.hi, n, ZERO);
      tables := SetLeaf(tables, t, Split(n).i0, ZERO);
      flat := flat - {n};
    }

    /** The write of mappages: page first + k, whose tables walk has found or made. */
    method MapLeaf(first: nat, k: nat, a: nat, ppn: nat, flags: nat, t: nat, ghost s0: Space, ghost s1: Space)
      requires Valid() && a == first + k < MAXVPN && VBit(flags) && MapDone(s0, s1, first, k, ppn, flags)
               && Walked(s1, State())
      requires root in tables && Table0(tables, root, Split(a)) == Some(t)
      modifies this`tables, this`flat
      ensures Valid() && MapDone(s0, State(), first, k + 1, ppn, flags)
    {
      var e := Pte(ppn + k, flags);
      SetPage(a, t, e);
      MapOneMore(s0, s1, old(State()), State(), first, k, ppn, flags, a, e);
    }

    /** One round of mappages: page a, from s1. */
    method MapOne(first: nat, k: nat, a: nat, ppn: nat, flags: nat, ghost s0: Space, ghost s1: Space) returns (ok: bool)
      requires s1 == State() && Valid() && a == first + k < MAXVPN && VBit(flags)
               && MapDone(s0, State(), first, k, ppn, flags)
      modifies this`tables, this`pos, this`flat, kmem
      ensures Valid() && MapDone(s0, State(), first, if ok then k + 1 else k, ppn, flags)
      ensures ok == Affords(s1, a) && (!ok ==> kmem.freelist == [])
    {
      var t := Walk(a, true);
      ok := t.Some?;
      if ok {
        MapLeaf(first, k, a, ppn, flags, t.value, s0, s1);
      } else {
        MapThenWalk(s0, s1, State(), first, k, ppn, flags);
      }
    }

    /** The loop of mappages, from page first to page last. */
    method MapRange(first: nat, last: nat, ppn: nat, flags: nat) returns (ok: bool, ghost k: nat)
      requires Valid() && first <= last < MAXVPN && VBit(flags)
      requires forall n: nat | first <= n <= last :: n !in flat
      modifies this`tables, this`pos, this`flat, kmem
      ensures Valid() && MapDone(old(State()), State(), first, k, ppn, flags)
      ensures if ok then k == last + 1 - first else k < last + 1 - first && kmem.freelist == []
      ensures first == last ==> ok == Affords(old(State()), first)
    {
      var a := first;
      k := 0;
      MapNothing(State(), first, ppn, flags);
      while true
        invariant Valid() && first <= a <= last && k == a - first && (k == 0 ==> State() == old(State()))
        invariant MapDone(old(State()), State(), first, k, ppn, flags)
        decreases last - a
      {
        ok := MapOne(first, a - first, a, ppn, flags, old(State()), State());
        if !ok { return; }
        k := k + 1;
        if a == last { return; }
        a := a + 1;
      }
    }

    /** mappages. On success the whole range is mapped; on failure, for want of a table page, a prefix of it.
        Remapping a page is a panic. */
    method MapPages(va: nat, size: nat, pa: nat, perm: nat) returns (ok: bool, ghost k: nat)
      requires Valid() && size > 0 && va + size <= MAXVA
      requires forall n: nat | va / PGSIZE <= n <= (va + size - 1) / PGSIZE :: n !in flat
      modifies this`tables, this`pos, this`flat, kmem
      ensures Valid() && MapDone(old(State()), State(), va / PGSIZE, k, pa / PGSIZE, WithV(perm))
      ensures var pages := (va + size - 1) / PGSIZE + 1 - va / PGSIZE;
              if ok then k == pages else k < pages && kmem.freelist == []
      ensures va / PGSIZE == (va + size - 1) / PGSIZE ==>
                ok == Affords(old(State()), va / PGSIZE)
    {
      ok, k := MapRange(va / PGSIZE, (va + size - 1) / PGSIZE, pa / PGSIZE, WithV(perm));
    }

    /** One round of uvmunmap: page a + k. */
    method UnmapOne(a: nat, k: nat, free: bool, ghost s0: Space, ghost total: nat)
      requires Valid() && UnmapDone(s0, State(), a, k, free) && k < total && a + total <= MAXVPN && Leaf(s0, a + k)
      requires free ==> Freeable(s0, kmem.lo, kmem.hi, a, total)
      modifies this`tables, this`pos, this`flat, kmem
      ensures Valid() && UnmapDone(s0, State(), a, k + 1, free)
    {
      ghost var s1 := State();
      UnmapNext(s0, s1, kmem.lo, kmem.hi, a, k, total, free);
      var n := a + k;
      WalkFinds(s1, kmem.lo, kmem.hi, n);
      var t := Walk(n, false);
      if free {
        kmem.Kfree(tables[t.value][Split(n).i0].ppn);
      }
      ClearPage(n, t.value);
      UnmapOneMore(s0, s1, State(), a, k, free, n);
    }

    /** uvmunmap of npages from page a, each mapped by a leaf entry (the source panics otherwise). */
    method UvmUnmap(a: nat, npages: nat, free: bool)
      requires Valid() && a + npages <= MAXVPN && AllLeaves(State(), a, npages)
      requires free ==> Freeable(State(), kmem.lo, kmem.hi, a, npages)
      modifies this`tables, this`pos, this`flat, kmem
      ensures Valid() && UnmapDone(old(State()), State(), a, npages, free)
    {
      var k := 0;
      ghost var s0 := State();
      UnmapNothing(s0, a, free);
      while k < npages
        invariant k <= npages && Valid() && UnmapDone(s0, State(), a, k, free)
      {
        assert Leaf(s0, a + k);
        UnmapOne(a, k, free, s0, npages);
        k := k + 1;
      }
    }
  }

  /** t is the table walk has reached on v's path when it is about to use index PX(level, v). */
  predicate OnPath(m: Tables, root: nat, pos: map<nat, Pos>, v: Vpn, level: nat, t: nat) {
    && level <= 2 && v.Ok() && root in m && t in pos
    && var at := pos[t];
       && v.i2 < ENTRIES / 2 && t in m
       && (level == 2 ==> t == root && at == Root)
       && (level == 1 ==> Table1(m, root, v) == Some(t) && at == Mid(v.i2))
       && (level == 0 ==> Table0(m, root, v) == Some(t) && at == Low(v.i2, v.i1))
  }

  lemma PathEntry(m: Tables, root: nat, pos: map<nat, Pos>, v: Vpn, level: nat, t: nat)
    requires OnPath(m, root, pos, v, level, t) && level > 0
    ensures PX(level, v) < ENTRIES && (!Present(m[t][PX(level, v)]) ==> Table0(m, root, v) == None)
  {
  }

  lemma PathStep(m: Tables, m': Tables, root: nat, pos: map<nat, Pos>, pos': map<nat, Pos>, v: Vpn, level: nat, t: nat,
                 c: nat)
    requires OnPath(m, root, pos, v, level, t) && level > 0 && c in m' && c in pos' && root in m' && t in m'
    requires Present(m'[t][PX(level, v)]) && m'[t][PX(level, v)].ppn == c
    requires pos'[c] == if level == 2 then Mid(v.i2) else Low(v.i2, v.i1)
    requires level == 1 ==> t != root
    requires forall p | p in m && p != t :: p in m' && m'[p] == m[p]
    ensures OnPath(m', root, pos', v, level - 1, c)
  {
  }
}
