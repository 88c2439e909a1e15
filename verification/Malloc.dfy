/** malloc and free of user/umalloc.c, over the heap of HeapModel. */
module Malloc {
  import opened Options
  import opened HeapModel

  /** The index after i on a cycle of n blocks, and how many steps lead from i to j. */
  function After(n: nat, i: nat): (k: nat)
    requires i < n
    ensures k < n
  {
    if i + 1 < n then i + 1 else 0
  }

  function Steps(n: nat, i: nat, j: nat): (d: nat)
    requires i < n && j < n
    ensures d < n && (d == 0 <==> i == j)
  {
    if i <= j then j - i else j - i + n
  }

  lemma OneStep(n: nat, i: nat, j: nat)
    requires i < n && j < n
    ensures Steps(n, After(n, i), j) == if i == j then n - 1 else Steps(n, i, j) - 1
  {
  }

  /** The freed block's header once free has looked at its successor n. */
  function UpperWrite(mem: Memory, n: nat, bp: nat): (b: Header)
    requires bp in mem && n in mem
  {
    if bp + mem[bp].size == n then Header(mem[n].ptr, mem[bp].size + mem[n].size) else mem[bp].(ptr := n)
  }

  /** The writes of free once its loop has found p. */
  function FreeWrites(mem: Memory, p: nat, bp: nat): (m: Memory)
    requires p in mem && bp in mem && mem[p].ptr in mem
  {
    var b := UpperWrite(mem, mem[p].ptr, bp);
    mem[bp := b][p := if p + mem[p].size == bp then Header(b.ptr, mem[p].size + b.size) else mem[p].(ptr := bp)]
  }

  /** The block linked in after fl[i], and whether it touches its successor. */
  lemma LinkedThere(x: Stage, i: nat, bp: nat)
    requires Cycle(x.mem, x.fl) && Fits(x.fl, i, bp) && bp in x.mem && bp !in x.fl && BASE < bp
    ensures x.fl[i] in x.mem && x.mem[x.fl[i]].ptr == Next(x.fl, i) && Next(x.fl, i) in x.mem && Next(x.fl, i) != bp
    ensures var y := LinkStage(x, i, bp);
            && i + 1 < |y.fl| && y.fl[i] == x.fl[i] && y.fl[i + 1] == bp
            && y.mem == x.mem[bp := x.mem[bp].(ptr := Next(x.fl, i))][x.fl[i] := x.mem[x.fl[i]].(ptr := bp)]
            && (i + 2 < |y.fl| ==> y.fl[i + 2] == Next(x.fl, i))
            && (Touching(y.mem, y.fl, i + 1) <==> bp + x.mem[bp].size == Next(x.fl, i))
  {
    assert Link(x.mem, x.fl, i) && Link(x.mem, x.fl, 0);
    if i + 1 < |x.fl| { assert Link(x.mem, x.fl, i + 1); }
  }

  lemma UpperWriteIs(x: Stage, i: nat, bp: nat)
    requires Cycle(x.mem, x.fl) && Fits(x.fl, i, bp) && bp in x.mem && bp !in x.fl && BASE < bp
    ensures x.fl[i] in x.mem && x.mem[x.fl[i]].ptr in x.mem
    ensures var y := JoinStage(LinkStage(x, i, bp), i + 1);
            var p := x.fl[i];
            && y.mem == x.mem[bp := UpperWrite(x.mem, x.mem[p].ptr, bp)][p := x.mem[p].(ptr := bp)]
            && i + 1 < |y.fl| && y.fl[i] == p && y.fl[i + 1] == bp
  {
    LinkedThere(x, i, bp);
  }

  lemma LowerWriteIs(y: Stage, i: nat, p: nat, bp: nat)
    requires i + 1 < |y.fl| && y.fl[i] == p && y.fl[i + 1] == bp && p in y.mem && bp in y.mem
    requires i == 0 ==> p + y.mem[p].size != bp
    ensures JoinStage(y, i).mem == if p + y.mem[p].size == bp
            then y.mem[p := Header(y.mem[bp].ptr, y.mem[p].size + y.mem[bp].size)] else y.mem
  {
  }

  /** They link the block in and join it with whichever neighbours it touches. */
  lemma FreeWritesAre(x: Stage, i: nat, bp: nat)
    requires Cycle(x.mem, x.fl) && Fits(x.fl, i, bp) && bp in x.mem && bp !in x.fl && BASE < bp
    ensures x.fl[i] in x.mem && x.mem[x.fl[i]].ptr in x.mem
    ensures Freed(x, i, bp).mem == FreeWrites(x.mem, x.fl[i], bp)
  {
    UpperWriteIs(x, i, bp);
    assert Link(x.mem, x.fl, 0);
    LowerWriteIs(JoinStage(LinkStage(x, i, bp), i + 1), i, x.fl[i], bp);
  }

  /** Every free block is as it was, but for the one that has taken in the size units from bp on. */
  ghost predicate OthersAsBefore(mem: Memory, fl: seq<nat>, bp: nat, size: nat, mem': Memory, fl': seq<nat>) {
    forall f | f in fl' :: AsBefore(mem, fl, bp, size, mem', f)
  }

  lemma FreeLeaves(x: Stage, live: map<nat, nat>, top: nat, i: nat, bp: nat)
    requires Tidy(x.mem, x.fl, live, x.owner, top) && bp in live && Fits(x.fl, i, bp)
    requires bp in x.mem && bp !in x.fl && BASE < bp && x.fl[i] in x.mem
    ensures OthersAsBefore(x.mem, x.fl, bp, live[bp], Freed(x, i, bp).mem, Freed(x, i, bp).fl)
  {
    assert LiveOwns(x.mem, x.fl, live, x.owner, bp);
    BelowTop(x.mem, x.fl, live, x.owner, top);
    forall f | f in Freed(x, i, bp).fl
      ensures AsBefore(x.mem, x.fl, bp, live[bp], Freed(x, i, bp).mem, f)
    {
      FreedBlocks(x, i, bp, f);
    }
  }

  /** Everything free promises, of the memory its writes leave. */
  lemma FreeIsTidy(x: Stage, live: map<nat, nat>, top: nat, i: nat, bp: nat) returns (y: Stage)
    requires Tidy(x.mem, x.fl, live, x.owner, top) && bp in live && Fits(x.fl, i, bp)
    requires bp in x.mem && bp !in x.fl && BASE < bp
    ensures x.fl[i] in x.mem && x.mem[x.fl[i]].ptr in x.mem && y.mem == FreeWrites(x.mem, x.fl[i], bp)
    ensures Tidy(y.mem, y.fl, live - {bp}, y.owner, top) && LiveKept(live - {bp}, x.owner, x.mem, y.mem)
    ensures x.fl[i] in y.fl && HasBlock(y.mem, y.fl, live[bp]) && y.owner.Keys == x.owner.Keys
    ensures OthersAsBefore(x.mem, x.fl, bp, live[bp], y.mem, y.fl)
  {
    FreedTidy(x, live, top, i, bp);
    FreedKeeps(x, live, top, i, bp);
    FreeWritesAre(x, i, bp);
    y := Freed(x, i, bp);
    FreeLeaves(x, live, top, i, bp);
  }

  /** Where malloc's search is: prevp is fl[h], p the block after it, freep is fl[f], and if any block
      is big enough then one is still ahead. */
  predicate Searching(mem: Memory, fl: seq<nat>, freep: nat, k: nat, f: nat, h: nat, prevp: nat, p: nat) {
    && f < |fl| && fl[f] == freep && h < |fl| && fl[h] == prevp && prevp in mem && p == fl[After(|fl|, h)] && p in mem
    && (HasBlock(mem, fl, k) ==> Ahead(mem, fl, After(|fl|, h), f, k))
  }

  /** Every unit of an allocation of live still belongs to it. */
  predicate OwnerKept(live: map<nat, nat>, owner: map<nat, nat>, owner': map<nat, nat>) {
    forall u | u in owner && owner[u] in live :: u in owner' && owner'[u] == owner[u]
  }

  /** sbrk has been called, because nothing fitted, and now something does. */
  ghost predicate Grew(mem0: Memory, fl0: seq<nat>, owner0: map<nat, nat>, mem: Memory, fl: seq<nat>,
                       owner: map<nat, nat>, k: nat, grant: Option<nat>) {
    && grant.Some? && !HasBlock(mem0, fl0, k)
    && var n := CoreUnits(k);
       HasBlock(mem, fl, k) && owner.Keys == GrownOwner(owner0, grant.value, n).Keys && EndsAt(mem, fl, k, grant.value + n)
  }

  /** Every free block of k units or more ends at end. */
  ghost predicate EndsAt(mem: Memory, fl: seq<nat>, k: nat, end: nat) {
    forall f | f in fl && f in mem && mem[f].size >= k :: f + mem[f].size == end
  }

  lemma AnyBlock(mem: Memory, fl: seq<nat>, live: map<nat, nat>, owner: map<nat, nat>, top: nat)
    requires Tidy(mem, fl, live, owner, top)
    ensures HasBlock(mem, fl, 0)
  {
    assert Link(mem, fl, 0);
    assert Big(mem, fl, 0, 0);
  }

  /** Where nothing was big enough, only the block that has taken in sbrk's memory is, and it ends where that ends. */
  lemma NewBlockLast(mem0: Memory, fl0: seq<nat>, live: map<nat, nat>, owner0: map<nat, nat>, top0: nat, hp: nat,
                     n: nat, nu: nat, mem: Memory, fl: seq<nat>, owner: map<nat, nat>)
    requires Tidy(mem0, fl0, live, owner0, top0) && BASE < hp && top0 <= hp && !HasBlock(mem0, fl0, nu) && nu <= n
    requires Tidy(mem, fl, live, owner, hp + n) && OthersAsBefore(Grown(mem0, hp, n), fl0, hp, n, mem, fl)
    ensures EndsAt(mem, fl, nu, hp + n)
  {
    BelowTop(mem0, fl0, live, owner0, top0);
    AnyBlock(mem0, fl0, live, owner0, top0);
    forall f | f in fl && f in mem && mem[f].size >= nu
      ensures f + mem[f].size == hp + n
    {
      assert AsBefore(Grown(mem0, hp, n), fl0, hp, n, mem, f);
      if f in fl0 && mem[f].size == Grown(mem0, hp, n)[f].size {
        var j: nat :| j < |fl0| && fl0[j] == f;
        assert f in mem0 && f < hp;
        assert Big(mem0, fl0, j, nu);
      }
      var i: nat :| i < |fl| && fl[i] == f;
      assert FreeOwns(mem, fl, owner, i);
      assert Placed(mem, fl, live, owner, hp + n, f + mem[f].size - 1);
    }
  }

  /** p, of nunits or more, is fl[i], and prevp the block before it. */
  ghost predicate FoundAt(mem: Memory, fl: seq<nat>, prevp: nat, p: nat, i: nat, nunits: nat) {
    && 1 <= i < |fl|
    && var before := fl[i - 1];
       p == fl[i] && prevp == before && prevp in mem && p in mem && mem[p].size >= nunits
  }

  lemma SearchStart(mem: Memory, fl: seq<nat>, live: map<nat, nat>, owner: map<nat, nat>, top: nat, freep: nat, k: nat)
    returns (f: nat, h: nat)
    requires Tidy(mem, fl, live, owner, top) && freep in fl
    ensures freep in mem && Searching(mem, fl, freep, k, f, h, freep, mem[freep].ptr)
  {
    f :| f < |fl| && fl[f] == freep;
    h := f;
    AtIndex(mem, fl, live, owner, top, f);
    AtIndex(mem, fl, live, owner, top, After(|fl|, f));
    if HasBlock(mem, fl, k) { AheadStart(mem, fl, f, k); }
  }

  /** One look at p: it fits, or the search has come to freep and nothing fits, or it moves on. */
  lemma SearchAt(mem: Memory, fl: seq<nat>, live: map<nat, nat>, owner: map<nat, nat>, top: nat, freep: nat, k: nat,
                 f: nat, h: nat, prevp: nat, p: nat)
    requires Tidy(mem, fl, live, owner, top) && Searching(mem, fl, freep, k, f, h, prevp, p) && k > 0
    ensures h < |fl| && f < |fl| && p in mem && p in fl && p == fl[After(|fl|, h)]
    ensures mem[p].size >= k ==> HasBlock(mem, fl, k) && After(|fl|, h) >= 1 && prevp == fl[After(|fl|, h) - 1] && prevp in mem
    ensures mem[p].size < k && p == freep ==> !HasBlock(mem, fl, k)
    ensures mem[p].size < k && p != freep ==>
              && Searching(mem, fl, freep, k, f, After(|fl|, h), p, mem[p].ptr)
              && Steps(|fl|, After(|fl|, After(|fl|, h)), f) < Steps(|fl|, After(|fl|, h), f)
  {
    var i := After(|fl|, h);
    AtIndex(mem, fl, live, owner, top, i);
    AtIndex(mem, fl, live, owner, top, After(|fl|, i));
    assert Big(mem, fl, i, k) <==> mem[p].size >= k;
    OneStep(|fl|, i, f);
    if !Big(mem, fl, i, k) && HasBlock(mem, fl, k) { AheadStep(mem, fl, i, f, k); }
  }

  const UNIT: nat := 16          // sizeof(Header)
  const MINCORE: nat := 4096

  /** The units malloc takes for a request: the bytes, rounded up, and a header. */
  function Units(nbytes: nat): (k: nat)
    ensures k >= 1 && (k - 1) * UNIT >= nbytes && (k >= 2 ==> (k - 2) * UNIT < nbytes)
  {
    (nbytes + UNIT - 1) / UNIT + 1
  }

  /** The units morecore asks sbrk for. */
  function CoreUnits(nu: nat): (k: nat)
    ensures k >= nu && k >= MINCORE
  {
    if nu < MINCORE then MINCORE else nu
  }

  /** What sbrk sees: its parameter is a 32-bit int. */
  function SbrkArgument(nu: nat): (n: int) {
    var low := (nu * UNIT) % 0x1_0000_0000;
    if low < 0x8000_0000 then low else low - 0x1_0000_0000
  }

  const INTUNITS: nat := 0x800_0000     // 2^31 bytes: the least request that sbrk's int parameter does not hold

  /** Of the units that malloc takes itself to have obtained for a request of nbytes, a uint, sbrk is asked for exactly
      those bytes below 2^27 units. From there on it is asked to shrink the process; at 2^28 units, the last but one
      number there is, for nothing; and at the last, 2^28 + 1, which is the largest request, for sixteen bytes. */
  lemma SbrkArgumentExact(nbytes: nat)
    requires nbytes < 0x1_0000_0000
    ensures var nu := CoreUnits(Units(nbytes));
            && (SbrkArgument(nu) == nu * UNIT <==> nu < INTUNITS)
            && (SbrkArgument(nu) < 0 <==> INTUNITS <= nu < 2 * INTUNITS)
            && (SbrkArgument(nu) == 0 <==> nu == 2 * INTUNITS)
            && (nu > 2 * INTUNITS <==> nbytes > 0xffff_fff0) && (nu > 2 * INTUNITS ==> SbrkArgument(nu) == UNIT)
    ensures Units(0xffff_ffff) == 0x1000_0001
  {
  }

  /** A block of k units lies on the way from fl[i] to fl[f]. */
  predicate Ahead(mem: Memory, fl: seq<nat>, i: nat, f: nat, k: nat)
    requires i < |fl| && f < |fl|
  {
    exists j: nat :: j < |fl| && Big(mem, fl, j, k) && Steps(|fl|, i, j) <= Steps(|fl|, i, f)
  }

  lemma AheadStart(mem: Memory, fl: seq<nat>, f: nat, k: nat)
    requires f < |fl| && HasBlock(mem, fl, k)
    ensures Ahead(mem, fl, After(|fl|, f), f, k)
  {
    var j: nat :| j < |fl| && Big(mem, fl, j, k);
    OneStep(|fl|, f, f);
  }

  lemma AheadStep(mem: Memory, fl: seq<nat>, i: nat, f: nat, k: nat)
    requires i < |fl| && f < |fl| && Ahead(mem, fl, i, f, k) && !Big(mem, fl, i, k)
    ensures i != f && Ahead(mem, fl, After(|fl|, i), f, k)
  {
    var j: nat :| j < |fl| && Big(mem, fl, j, k) && Steps(|fl|, i, j) <= Steps(|fl|, i, f);
    OneStep(|fl|, i, j);
    OneStep(|fl|, i, f);
  }

  class Allocator {
    var mem: Memory
    var freep: nat                    // 0 before the first malloc
    var top: nat                      // the end of the memory sbrk has handed out
    ghost var fl: seq<nat>
    ghost var live: map<nat, nat>     // header address of each allocation, and its units
    ghost var owner: map<nat, nat>    // the block each unit obtained from sbrk belongs to

    ghost predicate Valid()
      reads this
    {
      && BASE < top
      && (freep == 0 ==> mem.Keys == {BASE} && live == map[] && owner == map[] && fl == [])
      && (freep != 0 ==> Tidy(mem, fl, live, owner, top) && freep in fl)
    }

    constructor (start: nat)
      requires BASE < start
      ensures Valid() && live == map[] && owner == map[]
    {
      mem := map[BASE := Header(0, 0)];
      freep, top := 0, start;
      fl, live, owner := [], map[], map[];
    }

    /** The search loop of free: it ends at the block the freed one goes after. */
    method FindSlot(bp: nat) returns (p: nat, ghost i: nat)
      requires Cycle(mem, fl) && freep in fl && BASE < bp && bp !in fl
      ensures i < |fl| && p == fl[i] && Fits(fl, i, bp)
    {
      i :| 0 <= i < |fl| && fl[i] == freep;
      ghost var s := SlotExists(fl, bp);
      p := freep;
      SlotTest(mem, fl, bp, i);
      while !(bp > p && bp < mem[p].ptr)
        invariant i < |fl| && p == fl[i] && p in mem && mem[p].ptr == fl[After(|fl|, i)]
        invariant Fits(fl, i, bp) <==> (bp > p && bp < mem[p].ptr) || (p >= mem[p].ptr && (bp > p || bp < mem[p].ptr))
        decreases Steps(|fl|, i, s)
      {
        if p >= mem[p].ptr && (bp > p || bp < mem[p].ptr) {
          return;
        }
        OneStep(|fl|, i, s);
        i := After(|fl|, i);
        p := mem[p].ptr;
        SlotTest(mem, fl, bp, i);
      }
    }

    /** The writes of free. */
    method Splice(p: nat, bp: nat)
      requires p in mem && bp in mem && mem[p].ptr in mem && p != bp
      modifies this`mem
      ensures mem == FreeWrites(old(mem), p, bp)
    {
      if bp + mem[bp].size == mem[p].ptr {
        var n := mem[p].ptr;
        mem := mem[bp := Header(mem[n].ptr, mem[bp].size + mem[n].size)];
      } else {
        mem := mem[bp := mem[bp].(ptr := mem[p].ptr)];
      }
      if p + mem[p].size == bp {
        mem := mem[p := Header(mem[bp].ptr, mem[p].size + mem[bp].size)];
      } else {
        mem := mem[p := mem[p].(ptr := bp)];
      }
    }

    /** free: the block leaves the allocations and the heap stays tidy; other allocations are untouched. */
    method Free(ap: nat)
      requires Valid() && ap >= 1 && ap - 1 in live
      modifies this
      ensures Valid() && freep != 0 && top == old(top)
      ensures live == old(live) - {ap - 1} && owner.Keys == old(owner).Keys
      ensures LiveKept(live, old(owner), old(mem), mem)
      ensures HasBlock(mem, fl, old(live)[ap - 1])
      ensures OthersAsBefore(old(mem), old(fl), ap - 1, old(live)[ap - 1], mem, fl)
    {
      var bp := ap - 1;
      BlockAboveBase(mem, fl, live, owner, top, bp);
      var p;
      ghost var i;
      p, i := FindSlot(bp);
      ghost var y := FreeIsTidy(Stage(mem, fl, owner), live, top, i, bp);
      BaseOnList(mem, fl, live, owner, top, p);
      Splice(p, bp);
      fl, owner, live := y.fl, y.owner, live - {bp};
      freep := p;
    }

    /** sbrk's n units from hp, with a header written at hp, become an allocation. */
    method Sbrk(hp: nat, n: nat)
      requires Valid() && freep != 0 && hp >= top && n > 0
      modifies this
      ensures Valid() && freep == old(freep) && fl == old(fl) && top == hp + n && mem == Grown(old(mem), hp, n)
      ensures hp !in old(live) && live == old(live)[hp := n] && owner == GrownOwner(old(owner), hp, n)
      ensures LiveKept(old(live), old(owner), old(mem), mem)
      ensures forall u | u in old(owner) :: u in owner && owner[u] == old(owner)[u]
    {
      GrownTidy(mem, fl, live, owner, top, hp, n);
      GrownKeeps(mem, fl, live, owner, top, hp, n);
      mem, top := Grown(mem, hp, n), hp + n;
      live, owner := live[hp := n], GrownOwner(owner, hp, n);
    }

    /** sbrk's n units from hp become a free block. */
    method Obtain(hp: nat, n: nat)
      requires Valid() && freep != 0 && hp >= top && n > 0
      modifies this
      ensures Valid() && freep != 0 && live == old(live) && top == hp + n && HasBlock(mem, fl, n)
      ensures owner.Keys == GrownOwner(old(owner), hp, n).Keys && LiveKept(live, old(owner), old(mem), mem)
      ensures OthersAsBefore(Grown(old(mem), hp, n), old(fl), hp, n, mem, fl)
    {
      Sbrk(hp, n);
      ghost var owner1, mem1 := owner, mem;
      Free(hp + 1);
      assert live == old(live);
      KeptBoth(live, old(owner), owner1, old(mem), mem1, mem);
    }

    /** morecore: sbrk's memory becomes a block and is freed; grant is what sbrk returns. Whatever sbrk has made
        of its argument, morecore takes itself to have the units it meant to ask for. */
    method Morecore(nu: nat, grant: Option<nat>) returns (p: nat)
      requires Valid() && freep != 0 && (grant.Some? ==> grant.value >= top)
      modifies this
      ensures Valid() && freep != 0 && live == old(live)
      ensures LiveKept(live, old(owner), old(mem), mem) && OwnerKept(live, old(owner), owner)
      ensures p == 0 <==> grant.None?
      ensures p == 0 ==> mem == old(mem) && fl == old(fl) && owner == old(owner) && top == old(top)
      ensures p != 0 ==> && p == freep && HasBlock(mem, fl, nu)
                         && top == grant.value + CoreUnits(nu)
                         && owner.Keys == GrownOwner(old(owner), grant.value, CoreUnits(nu)).Keys
      ensures p != 0 && !HasBlock(old(mem), old(fl), nu) ==> EndsAt(mem, fl, nu, grant.value + CoreUnits(nu))
    {
      var n := CoreUnits(nu);
      if grant.None? {
        KeptSame(mem, fl, live, owner, top);
        return 0;
      }
      var hp := grant.value;
      Obtain(hp, n);
      BigIsEnough(mem, fl, n, nu);
      OwnersAgree(old(mem), old(fl), live, old(owner), old(top), mem, fl, owner, top);
      if !HasBlock(old(mem), old(fl), nu) {
        NewBlockLast(old(mem), old(fl), live, old(owner), old(top), hp, n, nu, mem, fl, owner);
      }
      p := freep;
    }

    /** Takes the whole of free block p. */
    method TakeWhole(prevp: nat, p: nat, ghost i: nat)
      requires Valid() && freep != 0 && 1 <= i < |fl| && p == fl[i] && prevp == fl[i - 1]
      requires prevp in mem && p in mem && mem[p].size > 0
      modifies this
      ensures Valid() && freep == prevp != 0 && top == old(top) && owner.Keys == old(owner).Keys
      ensures p !in old(live) && live == old(live)[p := old(mem)[p].size]
      ensures LiveKept(old(live), old(owner), old(mem), mem)
    {
      BaseOnList(mem, fl, live, owner, top, prevp);
      UnlinkedTidy(mem, fl, live, owner, top, i);
      live := live[p := mem[p].size];
      mem := mem[prevp := mem[prevp].(ptr := mem[p].ptr)];
      fl := Drop(fl, i);
      assert fl[i - 1] == prevp;
      freep := prevp;
    }

    /** Takes nunits from the tail end of free block p, which is larger. */
    method TakeTail(prevp: nat, p: nat, nunits: nat, ghost i: nat) returns (q: nat)
      requires Valid() && freep != 0 && 1 <= i < |fl| && p == fl[i] && prevp == fl[i - 1]
      requires prevp in mem && p in mem && mem[p].size > nunits > 0
      modifies this
      ensures Valid() && freep == prevp != 0 && top == old(top) && owner.Keys == old(owner).Keys
      ensures q !in old(live) && live == old(live)[q := nunits] && q == p + old(mem)[p].size - nunits
      ensures LiveKept(old(live), old(owner), old(mem), mem)
    {
      BaseOnList(mem, fl, live, owner, top, prevp);
      q := p + mem[p].size - nunits;
      TailFound(mem, fl, live, owner, top, i, nunits);
      FreeNotLive(mem, fl, live, owner, i);
      SplitTidy(mem, fl, live, owner, top, i, nunits, q);
      SplitKeeps(mem, fl, live, owner, top, i, nunits, q);
      mem := mem[p := mem[p].(size := mem[p].size - nunits)];
      mem := mem[q := mem[q].(size := nunits)];
      owner, live := GiveTail(owner, q, nunits), live[q := nunits];
      freep := prevp;
    }

    /** Takes nunits from free block p, the tail end of it if it is larger. */
    method Carve(prevp: nat, p: nat, nunits: nat, ghost i: nat) returns (q: nat)
      requires Valid() && freep != 0 && 1 <= i < |fl| && p == fl[i] && prevp == fl[i - 1]
      requires prevp in mem && p in mem && mem[p].size >= nunits > 0
      modifies this
      ensures Valid() && freep == prevp != 0 && top == old(top) && owner.Keys == old(owner).Keys
      ensures q !in old(live) && live == old(live)[q := nunits] && q == p + old(mem)[p].size - nunits
      ensures LiveKept(old(live), old(owner), old(mem), mem)
    {
      if mem[p].size == nunits {
        TakeWhole(prevp, p, i);
        q := p;
      } else {
        q := TakeTail(prevp, p, nunits, i);
      }
    }

    /** The same, since live0, owner0 and mem0. */
    method CarveAndKeep(prevp: nat, p: nat, nunits: nat, ghost i: nat, ghost live0: map<nat, nat>,
                        ghost owner0: map<nat, nat>, ghost mem0: Memory)
      returns (r: nat)
      requires Valid() && freep != 0 && 1 <= i < |fl| && p == fl[i] && prevp == fl[i - 1]
      requires prevp in mem && p in mem && mem[p].size >= nunits > 0 && LiveKept(live, owner0, mem0, mem)
      requires OwnerKept(live, owner0, owner) && live == live0
      modifies this
      ensures Valid() && freep != 0 && owner.Keys == old(owner).Keys && LiveKept(live0, owner0, mem0, mem)
      ensures r >= 1 && r - 1 !in live0 && live == live0[r - 1 := nunits]
      ensures r == p + old(mem)[p].size - nunits + 1
    {
      var q := Carve(prevp, p, nunits, i);
      KeptBoth(old(live), owner0, old(owner), mem0, old(mem), mem);
      r := q + 1;
    }

    /** morecore, and the search begun again at the block it returns. */
    method Refill(nunits: nat, grant: Option<nat>) returns (p: nat, ghost f: nat, ghost h: nat)
      requires Valid() && freep != 0 && !HasBlock(mem, fl, nunits) && (grant.Some? ==> grant.value >= top)
      modifies this
      ensures Valid() && freep != 0 && live == old(live)
      ensures LiveKept(live, old(owner), old(mem), mem) && OwnerKept(live, old(owner), owner)
      ensures p == 0 <==> grant.None?
      ensures p == 0 ==> mem == old(mem) && fl == old(fl) && owner == old(owner)
      ensures p != 0 ==> && p in mem && Searching(mem, fl, freep, nunits, f, h, p, mem[p].ptr)
                         && Grew(old(mem), old(fl), old(owner), mem, fl, owner, nunits, grant)
    {
      f, h := 0, 0;
      p := Morecore(nunits, grant);
      if p != 0 { f, h := SearchStart(mem, fl, live, owner, top, freep, nunits); }
    }

    /** The search of malloc. It goes around the list once, and if nothing fits calls morecore, at most
        once: the next time around a block of nunits must turn up. p is that block, prevp the one before it. */
    method Search(nunits: nat, grant: Option<nat>) returns (found: bool, prevp: nat, p: nat, ghost i: nat)
      requires Valid() && freep != 0 && nunits > 0 && (grant.Some? ==> grant.value >= top)
      modifies this
      ensures Valid() && freep != 0 && live == old(live)
      ensures LiveKept(live, old(owner), old(mem), mem) && OwnerKept(live, old(owner), owner)
      ensures found <==> grant.Some? || HasBlock(old(mem), old(fl), nunits)
      ensures !found || HasBlock(old(mem), old(fl), nunits) ==> mem == old(mem) && fl == old(fl) && owner == old(owner)
      ensures found ==> FoundAt(mem, fl, prevp, p, i, nunits)
      ensures found && !HasBlock(old(mem), old(fl), nunits) ==>
                Grew(old(mem), old(fl), old(owner), mem, fl, owner, nunits, grant)
    {
      KeptSame(mem, fl, live, owner, top);
      prevp, i := freep, 0;
      ghost var f, h := SearchStart(mem, fl, live, owner, top, freep, nunits);
      p := mem[prevp].ptr;
      ghost var called := false;
      while true
        invariant Valid() && freep != 0 && live == old(live)
        invariant LiveKept(live, old(owner), old(mem), mem) && OwnerKept(live, old(owner), owner)
        invariant Searching(mem, fl, freep, nunits, f, h, prevp, p)
        invariant !called ==> mem == old(mem) && fl == old(fl) && owner == old(owner) && top == old(top)
        invariant called ==> Grew(old(mem), old(fl), old(owner), mem, fl, owner, nunits, grant)
        decreases if called then 0 else 1, Steps(|fl|, After(|fl|, h), f)
      {
        SearchAt(mem, fl, live, owner, top, freep, nunits, f, h, prevp, p);
        if mem[p].size >= nunits {
          found, i := true, After(|fl|, h);
          return;
        }
        if p == freep {
          p, f, h := Refill(nunits, grant);
          if p == 0 {
            found := false;
            return;
          }
          called := true;
          prevp := p;
        } else {
          prevp := p;
          h := After(|fl|, h);
        }
        p := mem[p].ptr;
      }
    }

    /** The loop of malloc: the search, and the units taken from the block it finds. */
    method Allocate(nunits: nat, grant: Option<nat>) returns (r: nat)
      requires Valid() && freep != 0 && nunits > 0 && (grant.Some? ==> grant.value >= top)
      modifies this
      ensures Valid() && freep != 0 && LiveKept(old(live), old(owner), old(mem), mem)
      ensures r == 0 <==> grant.None? && !HasBlock(old(mem), old(fl), nunits)
      ensures r == 0 ==> live == old(live) && owner == old(owner)
      ensures r != 0 ==> r - 1 !in old(live) && live == old(live)[r - 1 := nunits]
      ensures owner.Keys == if HasBlock(old(mem), old(fl), nunits) || grant.None? then old(owner).Keys
                            else GrownOwner(old(owner), grant.value, CoreUnits(nunits)).Keys
      ensures grant.Some? && !HasBlock(old(mem), old(fl), nunits) ==> r == grant.value + CoreUnits(nunits) - nunits + 1
    {
      var found, prevp, p;
      ghost var i;
      found, prevp, p, i := Search(nunits, grant);
      if !found { return 0; }
      assert p in fl;
      r := CarveAndKeep(prevp, p, nunits, i, old(live), old(owner), old(mem));
    }

    /** The list malloc starts from: base alone, pointing to itself. */
    method InitList()
      requires Valid() && freep == 0
      modifies this
      ensures Valid() && freep != 0 && live == old(live) && owner == old(owner) && top == old(top)
      ensures fl == [BASE] && BASE in mem && mem[BASE] == Header(BASE, 0)
    {
      mem := mem[BASE := Header(BASE, 0)];
      freep, fl := BASE, [BASE];
      assert Link(mem, fl, 0);
    }

    /** malloc. It returns 0 only when nothing fits and sbrk fails; otherwise the address of a new
        allocation of Units(nbytes) units, header included, which is the last of what morecore obtained if nothing
        fitted. Every other allocation is untouched. From INTUNITS units on sbrk does not obtain what morecore
        takes itself to have. */
    method Malloc(nbytes: nat, grant: Option<nat>) returns (r: nat)
      requires Valid() && (grant.Some? ==> grant.value >= top)
      modifies this
      ensures Valid() && LiveKept(old(live), old(owner), old(mem), mem)
      ensures r == 0 <==> grant.None? && !HasBlock(old(mem), old(fl), Units(nbytes))
      ensures r == 0 ==> live == old(live) && owner == old(owner)
      ensures r != 0 ==> r - 1 !in old(live) && live == old(live)[r - 1 := Units(nbytes)]
      ensures owner.Keys == if HasBlock(old(mem), old(fl), Units(nbytes)) || grant.None? then old(owner).Keys
                            else GrownOwner(old(owner), grant.value, CoreUnits(Units(nbytes))).Keys
      ensures grant.Some? && !HasBlock(old(mem), old(fl), Units(nbytes)) ==>
                r == grant.value + CoreUnits(Units(nbytes)) - Units(nbytes) + 1
    {
      var nunits := Units(nbytes);
      if freep == 0 {
        InitList();
        assert !HasBlock(mem, fl, nunits) && !HasBlock(old(mem), old(fl), nunits);
      }
      r := Allocate(nunits, grant);
    }

    /** A program stores what it likes inside its allocation, past the header. */
    method UserStore(a: nat, u: nat, h: Header)
      requires Valid() && a in live && a < u < a + live[a]
      modifies this`mem
      ensures Valid() && u in old(mem) && mem == old(mem)[u := h]
    {
      StoreInside(mem, fl, live, owner, top, a, u, h);
      mem := mem[u := h];
    }
  }

  lemma BlockAboveBase(mem: Memory, fl: seq<nat>, live: map<nat, nat>, owner: map<nat, nat>, top: nat, bp: nat)
    requires Tidy(mem, fl, live, owner, top) && bp in live
    ensures |fl| >= 1 && fl[0] == BASE < bp && bp !in fl && bp in mem && mem[bp].size == live[bp] > 0
    ensures bp in owner && owner[bp] == bp
  {
    assert LiveOwns(mem, fl, live, owner, bp) && Placed(mem, fl, live, owner, top, bp);
  }

  /** The tests of free's loop find out whether bp goes after fl[i]. */
  lemma SlotTest(mem: Memory, fl: seq<nat>, bp: nat, i: nat)
    requires Cycle(mem, fl) && i < |fl| && BASE < bp && bp !in fl
    ensures fl[i] in mem && mem[fl[i]].ptr == fl[After(|fl|, i)]
    ensures var p, n := fl[i], mem[fl[i]].ptr;
            Fits(fl, i, bp) <==> (bp > p && bp < n) || (p >= n && (bp > p || bp < n))
  {
    assert Link(mem, fl, i);
    assert bp != fl[After(|fl|, i)];
  }

  lemma BigIsEnough(mem: Memory, fl: seq<nat>, n: nat, nu: nat)
    requires HasBlock(mem, fl, n) && nu <= n
    ensures HasBlock(mem, fl, nu)
  {
    var j: nat :| j < |fl| && Big(mem, fl, j, n);
    assert Big(mem, fl, j, nu);
  }

  lemma BaseOnList(mem: Memory, fl: seq<nat>, live: map<nat, nat>, owner: map<nat, nat>, top: nat, p: nat)
    requires Tidy(mem, fl, live, owner, top) && p in fl
    ensures p != 0
  {
    var j: nat :| j < |fl| && fl[j] == p;
  }

  lemma KeptBoth(live: map<nat, nat>, owner: map<nat, nat>, owner1: map<nat, nat>, mem: Memory, mem1: Memory,
                 mem2: Memory)
    requires LiveKept(live, owner, mem, mem1) && LiveKept(live, owner1, mem1, mem2)
    requires forall u | u in owner && owner[u] in live :: u in owner1 && owner1[u] == owner[u]
    ensures LiveKept(live, owner, mem, mem2)
  {
  }

  lemma KeptSame(mem: Memory, fl: seq<nat>, live: map<nat, nat>, owner: map<nat, nat>, top: nat)
    requires Tidy(mem, fl, live, owner, top)
    ensures LiveKept(live, owner, mem, mem)
  {
    assert forall u | u in owner :: Placed(mem, fl, live, owner, top, u);
  }

  lemma AtIndex(mem: Memory, fl: seq<nat>, live: map<nat, nat>, owner: map<nat, nat>, top: nat, i: nat)
    requires Tidy(mem, fl, live, owner, top) && i < |fl|
    ensures fl[i] in mem && mem[fl[i]].ptr == fl[After(|fl|, i)] && (mem[fl[i]].size > 0 ==> i >= 1)
    ensures forall j: nat | j < |fl| && fl[j] == fl[i] :: j == i
  {
    assert Link(mem, fl, i);
  }

  lemma OwnersAgree(mem: Memory, fl: seq<nat>, live: map<nat, nat>, owner: map<nat, nat>, top: nat, mem': Memory,
                    fl': seq<nat>, owner': map<nat, nat>, top': nat)
    requires Tidy(mem, fl, live, owner, top) && Tidy(mem', fl', live, owner', top')
    ensures OwnerKept(live, owner, owner')
  {
    forall u | u in owner && owner[u] in live
      ensures u in owner' && owner'[u] == owner[u]
    {
      assert Placed(mem, fl, live, owner, top, u);
      assert LiveOwns(mem, fl, live, owner, owner[u]) && LiveOwns(mem', fl', live, owner', owner[u]);
    }
  }

  lemma StoreInside(mem: Memory, fl: seq<nat>, live: map<nat, nat>, owner: map<nat, nat>, top: nat, a: nat, u: nat,
                    h: Header)
    requires Tidy(mem, fl, live, owner, top) && a in live && a < u < a + live[a]
    ensures u in mem && Tidy(mem[u := h], fl, live, owner, top)
  {
    assert LiveOwns(mem, fl, live, owner, a);
    LiveUnitNotFree(mem, fl, live, owner, top, u);
    var m := mem[u := h];
    forall j: nat | j < |fl|
      ensures Link(m, fl, j) && FreeOwns(m, fl, owner, j)
    {
      assert Link(mem, fl, j) && FreeOwns(mem, fl, owner, j) && fl[j] in fl;
    }
    forall j: nat | j + 1 < |fl|
      ensures Apart(m, fl, j) && Gap(m, fl, j)
    {
      assert Gap(mem, fl, j) && fl[j] in fl;
    }
    forall b | b in live
      ensures LiveOwns(m, fl, live, owner, b)
    {
      assert LiveOwns(mem, fl, live, owner, b);
    }
    forall v | v in owner
      ensures Placed(m, fl, live, owner, top, v)
    {
      assert Placed(mem, fl, live, owner, top, v);
    }
  }

  /** The largest requests. Where nothing fits and sbrk succeeds, malloc returns the address sixteen bytes into what
      sbrk returned, which is where the sixteen bytes it obtained end: none of the bytes asked for is there. */
  method LargestRequest(a: Allocator, nbytes: nat, grant: nat) returns (r: nat)
    requires a.Valid() && grant >= a.top && 0xffff_fff0 < nbytes < 0x1_0000_0000
             && !HasBlock(a.mem, a.fl, Units(nbytes))
    modifies a
    ensures r * UNIT == grant * UNIT + SbrkArgument(CoreUnits(Units(nbytes)))
    ensures r - 1 in a.live && (a.live[r - 1] - 1) * UNIT >= nbytes
  {
    SbrkArgumentExact(nbytes);
    r := a.Malloc(nbytes, Some(grant));
  }
}
