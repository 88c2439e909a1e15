/** Sv39 page tables as values (kernel/vm.c, kernel/riscv.h; section 4.4 of the RISC-V Privileged
    Architecture): three levels of 512-entry tables linked by physical page numbers. */
module PageTableModel {
  import opened Options

  const ENTRIES: nat := 512
  const MAXVA: nat := 0x40_0000_0000        // 1 << 38
  const MAXVPN: nat := 0x400_0000           // MAXVA / PGSIZE

  const PTE_V: nat := 1        // R, W, X and U are 2, 4, 8 and 16

  /** A page-table entry: physical page number, and the ten flag bits. */
  datatype Pte = Pte(ppn: nat, flags: nat)

  predicate VBit(flags: nat) { flags % 2 == 1 }
  predicate Present(e: Pte) { VBit(e.flags) }
  predicate Readable(e: Pte) { (e.flags / 2) % 2 == 1 }
  predicate Writable(e: Pte) { (e.flags / 4) % 2 == 1 }
  predicate Executable(e: Pte) { (e.flags / 8) % 2 == 1 }
  predicate UserOk(e: Pte) { (e.flags / 16) % 2 == 1 }
  predicate Pointer(e: Pte) { Present(e) && (e.flags / 2) % 8 == 0 }

  const ZERO: Pte := Pte(0, 0)

  type Table = t: seq<Pte> | |t| == ENTRIES witness seq(ENTRIES, _ => ZERO)

  function Blank(): Table { seq(ENTRIES, _ => ZERO) }

  type Tables = map<nat, Table>

  // ---------------------------------------------------------------- the 64-bit word

  /** PA2PTE(pa) | flags, for a page-aligned pa. */
  function Word(e: Pte): (w: nat) { e.ppn * 1024 + e.flags }

  function FromWord(w: nat): (e: Pte) { Pte(w / 1024, w % 1024) }

  /** PTE2PA and PTE_FLAGS recover what PA2PTE and the flags put in. */
  lemma WordRoundTrip(e: Pte, w: nat)
    ensures e.flags < 1024 ==> FromWord(Word(e)) == e
    ensures Word(FromWord(w)) == w
  {
  }

  // ---------------------------------------------------------------- virtual page numbers

  /** The three 9-bit indices of a virtual address. */
  datatype Vpn = Vpn(i2: nat, i1: nat, i0: nat) {
    predicate Ok() { i2 < ENTRIES && i1 < ENTRIES && i0 < ENTRIES }
  }

  /** PX(2, va), PX(1, va), PX(0, va) for va in page n. */
  function Split(n: nat): (v: Vpn)
    ensures n < MAXVPN ==> v.Ok() && v.i2 < ENTRIES / 2
  {
    Vpn((n / 0x4_0000) % ENTRIES, (n / ENTRIES) % ENTRIES, n % ENTRIES)
  }

  /** Below MAXVA the index triple determines the page. */
  lemma SplitInjective(n: nat, m: nat)
    requires n < MAXVPN && m < MAXVPN && Split(n) == Split(m)
    ensures n == m
  {
    assert n / 0x4_0000 == (n / ENTRIES) / ENTRIES && m / 0x4_0000 == (m / ENTRIES) / ENTRIES;
    assert n / 0x4_0000 < ENTRIES && m / 0x4_0000 < ENTRIES;
  }

  function Join(v: Vpn): (n: nat) { v.i2 * 0x4_0000 + v.i1 * ENTRIES + v.i0 }

  /** Every triple in the lower half is some page below MAXVA. */
  lemma SplitOnto(v: Vpn)
    requires v.Ok() && v.i2 < ENTRIES / 2
    ensures Join(v) < MAXVPN && Split(Join(v)) == v
  {
    assert Join(v) / ENTRIES == v.i2 * ENTRIES + v.i1;
    assert Join(v) / 0x4_0000 == v.i2;
  }

  /** Above it, it does not: the first page past MAXVA * 2 has the indices of page 0. */
  lemma SplitWraps()
    ensures Split(0) == Split(2 * MAXVPN)
  {
  }

  // ---------------------------------------------------------------- the tree

  /** A table page's place in the tree. */
  datatype Pos = Root | Mid(i2: nat) | Low(i2: nat, i1: nat)

  /** Entry i of page p leads where the tree says. */
  predicate EntryOk(m: Tables, pos: map<nat, Pos>, p: nat, i: nat)
    requires p in pos && p in m && i < ENTRIES
  {
    var e := m[p][i];
    match pos[p]
    case Root => Present(e) ==> i < ENTRIES / 2 && e.flags == PTE_V && e.ppn in pos && pos[e.ppn] == Mid(i)
    case Mid(i2) => Present(e) ==> e.flags == PTE_V && e.ppn in pos && pos[e.ppn] == Low(i2, i)
    case Low(_, _) => true
  }

  /** Page q hangs where the tree says. */
  predicate ChildOk(m: Tables, root: nat, pos: map<nat, Pos>, q: nat)
    requires q in pos && root in m
  {
    match pos[q]
    case Root => q == root
    case Mid(i2) => i2 < ENTRIES && Present(m[root][i2]) && m[root][i2].ppn == q
    case Low(i2, i1) =>
      && i2 < ENTRIES && i1 < ENTRIES && Present(m[root][i2])
      && var t := m[root][i2].ppn;
         t in m && t in pos && pos[t] == Mid(i2) && Present(m[t][i1]) && m[t][i1].ppn == q
  }

  predicate AllEntries(m: Tables, pos: map<nat, Pos>)
    requires forall p | p in pos :: p in m
  {
    forall p, i: nat {:trigger EntryOk(m, pos, p, i)} | p in pos && i < ENTRIES :: EntryOk(m, pos, p, i)
  }

  predicate AllChildren(m: Tables, root: nat, pos: map<nat, Pos>)
    requires root in m
  {
    forall q {:trigger ChildOk(m, root, pos, q)} | q in pos :: ChildOk(m, root, pos, q)
  }

  /** The table pages form one tree from root, each page in one place, none left over. */
  predicate Tree(m: Tables, root: nat, pos: map<nat, Pos>) {
    && root in m && root in pos && pos[root] == Root && pos.Keys == m.Keys
    && AllEntries(m, pos) && AllChildren(m, root, pos)
  }

  // ---------------------------------------------------------------- walking it

  /** The level-1 table for v, if there is one. */
  function Table1(m: Tables, root: nat, v: Vpn): (t: Option<nat>)
    requires root in m && v.Ok()
  {
    if Present(m[root][v.i2]) then Some(m[root][v.i2].ppn) else None
  }

  function Table0(m: Tables, root: nat, v: Vpn): (t: Option<nat>)
    requires root in m && v.Ok()
  {
    match Table1(m, root, v)
    case None => None
    case Some(t) => if t in m && Present(m[t][v.i1]) then Some(m[t][v.i1].ppn) else None
  }

  /** The translation of v: its leaf entry, if the walk gets there and the entry is valid. */
  function Lookup(m: Tables, root: nat, v: Vpn): (e: Option<Pte>)
    requires root in m && v.Ok()
  {
    match Table0(m, root, v)
    case None => None
    case Some(t) => if t in m && Present(m[t][v.i0]) then Some(m[t][v.i0]) else None
  }

  lemma TablesOnPath(m: Tables, root: nat, pos: map<nat, Pos>, v: Vpn)
    requires Tree(m, root, pos) && v.Ok()
    ensures Table1(m, root, v).Some? ==> var t := Table1(m, root, v).value; t in m && t in pos && pos[t] == Mid(v.i2)
    ensures Table0(m, root, v).Some? ==> var t := Table0(m, root, v).value; t in m && t in pos && pos[t] == Low(v.i2, v.i1)
  {
    assert EntryOk(m, pos, root, v.i2);
    if Table1(m, root, v).Some? { assert EntryOk(m, pos, Table1(m, root, v).value, v.i1); }
  }

  // ---------------------------------------------------------------- changing one leaf

  function SetLeaf(m: Tables, t: nat, i: nat, e: Pte): (m': Tables)
    requires t in m && i < ENTRIES
  {
    m[t := m[t][i := e]]
  }

  lemma SetLeafTree(m: Tables, root: nat, pos: map<nat, Pos>, t: nat, i: nat, e: Pte)
    requires Tree(m, root, pos) && t in m && i < ENTRIES && pos[t].Low?
    ensures Tree(SetLeaf(m, t, i, e), root, pos)
  {
    var m' := SetLeaf(m, t, i, e);
    assert m'.Keys == m.Keys;
    forall p, j: nat | p in pos && j < ENTRIES
      ensures EntryOk(m', pos, p, j)
    {
      assert EntryOk(m, pos, p, j);
    }
    forall q | q in pos
      ensures ChildOk(m', root, pos, q)
    {
      assert ChildOk(m, root, pos, q);
    }
  }

  /** Writing v's leaf changes v's translation and no other. */
  lemma SetLeafLookup(m: Tables, root: nat, pos: map<nat, Pos>, v: Vpn, e: Pte, w: Vpn)
    requires Tree(m, root, pos) && v.Ok() && w.Ok() && Table0(m, root, v).Some?
    ensures Table0(m, root, v).value in m
    ensures var m' := SetLeaf(m, Table0(m, root, v).value, v.i0, e);
            && Table0(m', root, w) == Table0(m, root, w)
            && Lookup(m', root, w) == if w == v then (if Present(e) then Some(e) else None) else Lookup(m, root, w)
  {
    TablesOnPath(m, root, pos, v);
    TablesOnPath(m, root, pos, w);
  }

  // ---------------------------------------------------------------- adding a table page

  function AddTable(m: Tables, t: nat, i: nat, q: nat): (m': Tables)
    requires t in m && i < ENTRIES
  {
    m[q := Blank()][t := m[t][i := Pte(q, PTE_V)]]
  }

  /** A blank table hung in an empty slot of the root or of a level-1 table keeps the tree. */
  lemma AddTableTree(m: Tables, root: nat, pos: map<nat, Pos>, t: nat, i: nat, q: nat, at: Pos)
    requires Tree(m, root, pos) && t in m && i < ENTRIES && q !in m && !Present(m[t][i])
    requires (pos[t] == Root && at == Mid(i) && i < ENTRIES / 2) || (pos[t].Mid? && at == Low(pos[t].i2, i))
    ensures Tree(AddTable(m, t, i, q), root, pos[q := at])
  {
    var m', pos' := AddTable(m, t, i, q), pos[q := at];
    assert ChildOk(m, root, pos, t);
    assert pos'.Keys == m'.Keys;
    forall p, j: nat | p in pos' && j < ENTRIES
      ensures EntryOk(m', pos', p, j)
    {
      if p in pos { assert EntryOk(m, pos, p, j); }
    }
    forall c | c in pos'
      ensures ChildOk(m', root, pos', c)
    {
      if c in pos { assert ChildOk(m, root, pos, c); }
    }
  }

  lemma AddTableLookup(m: Tables, root: nat, pos: map<nat, Pos>, t: nat, i: nat, q: nat, w: Vpn)
    requires Tree(m, root, pos) && t in m && i < ENTRIES && q !in m && !Present(m[t][i]) && !pos[t].Low? && w.Ok()
    ensures Lookup(AddTable(m, t, i, q), root, w) == Lookup(m, root, w)
    ensures Table1(m, root, w).Some? ==> Table1(AddTable(m, t, i, q), root, w) == Table1(m, root, w)
  {
    TablesOnPath(m, root, pos, w);
    assert ChildOk(m, root, pos, t);
  }
}
