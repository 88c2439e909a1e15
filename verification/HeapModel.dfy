/** The heap behind malloc and free of user/umalloc.c, as values: a circular free list threaded
    through block headers, live allocations, and who owns each unit obtained from sbrk. */
module HeapModel {

  const BASE: nat := 1    // the address of the static header base, below the heap; 0 is the null pointer

  /** One unit of memory, read as a block header; addresses and sizes are in units. */
  datatype Header = Header(ptr: nat, size: nat)

  type Memory = map<nat, Header>

  predicate Increasing(fl: seq<nat>) {
    forall i, j | 0 <= i < j < |fl| :: fl[i] < fl[j]
  }

  function Next(fl: seq<nat>, i: nat): (a: nat)
    requires i < |fl|
  {
    if i + 1 < |fl| then fl[i + 1] else fl[0]
  }

  /** fl[i] is a header that points to its successor on the list. */
  predicate Link(mem: Memory, fl: seq<nat>, i: nat)
    requires i < |fl|
  {
    fl[i] in mem && mem[fl[i]].ptr == Next(fl, i) && (mem[fl[i]].size == 0 <==> i == 0)
  }

  /** fl[i] ends no later than its successor begins. */
  predicate Apart(mem: Memory, fl: seq<nat>, i: nat)
    requires i + 1 < |fl|
  {
    fl[i] in mem && fl[i] + mem[fl[i]].size <= fl[i + 1]
  }

  /** fl[i] ends before its successor begins. */
  predicate Gap(mem: Memory, fl: seq<nat>, i: nat)
    requires i + 1 < |fl|
  {
    fl[i] in mem && fl[i] + mem[fl[i]].size < fl[i + 1]
  }

  /** fl is the free list: one cycle in address order from base, blocks not overlapping. */
  predicate Cycle(mem: Memory, fl: seq<nat>) {
    && |fl| >= 1 && fl[0] == BASE && Increasing(fl)
    && (forall i: nat | i < |fl| :: Link(mem, fl, i))
    && (forall i: nat | i + 1 < |fl| :: Apart(mem, fl, i))
  }

  /** No two free blocks touch. */
  predicate Coalesced(mem: Memory, fl: seq<nat>) {
    forall i: nat | i + 1 < |fl| :: Gap(mem, fl, i)
  }

  /** The units of block a are its own. */
  predicate Owns(owner: map<nat, nat>, a: nat, size: nat) {
    forall u: nat | a <= u < a + size :: u in owner && owner[u] == a
  }

  /** fl[i] owns its units. */
  predicate FreeOwns(mem: Memory, fl: seq<nat>, owner: map<nat, nat>, i: nat)
    requires i < |fl|
  {
    fl[i] in mem && Owns(owner, fl[i], mem[fl[i]].size)
  }

  /** Allocation a has its header in place, owns its units and is not on the free list. */
  predicate LiveOwns(mem: Memory, fl: seq<nat>, live: map<nat, nat>, owner: map<nat, nat>, a: nat)
    requires a in live
  {
    live[a] > 0 && a in mem && mem[a].size == live[a] && a !in fl && Owns(owner, a, live[a])
  }

  /** Unit u lies in a live allocation or in a free block, as owner says. */
  predicate Placed(mem: Memory, fl: seq<nat>, live: map<nat, nat>, owner: map<nat, nat>, top: nat, u: nat)
    requires u in owner
  {
    var a := owner[u];
    && BASE < u < top && u in mem
    && (|| (a in live && a <= u < a + live[a])
        || (a in fl && a != BASE && a in mem && a <= u < a + mem[a].size))
  }

  predicate FreePart(mem: Memory, fl: seq<nat>, owner: map<nat, nat>) {
    forall i: nat | i < |fl| :: FreeOwns(mem, fl, owner, i)
  }

  predicate LivePart(mem: Memory, fl: seq<nat>, live: map<nat, nat>, owner: map<nat, nat>) {
    forall a {:trigger LiveOwns(mem, fl, live, owner, a)} | a in live :: LiveOwns(mem, fl, live, owner, a)
  }

  predicate UnitPart(mem: Memory, fl: seq<nat>, live: map<nat, nat>, owner: map<nat, nat>, top: nat) {
    && (forall u {:trigger Placed(mem, fl, live, owner, top, u)} | u in owner :: Placed(mem, fl, live, owner, top, u))
    && (forall u | u in mem :: u == BASE || u in owner)
  }

  /** Every unit obtained from sbrk lies in exactly one block, free or live. */
  predicate Partition(mem: Memory, fl: seq<nat>, live: map<nat, nat>, owner: map<nat, nat>, top: nat) {
    FreePart(mem, fl, owner) && LivePart(mem, fl, live, owner) && UnitPart(mem, fl, live, owner, top)
  }

  predicate HeapOk(mem: Memory, fl: seq<nat>, live: map<nat, nat>, owner: map<nat, nat>, top: nat) {
    Cycle(mem, fl) && Partition(mem, fl, live, owner, top)
  }

  /** Live allocations keep every unit they own, header and contents. */
  predicate LiveKept(live: map<nat, nat>, owner: map<nat, nat>, mem: Memory, mem': Memory) {
    forall u | u in owner && owner[u] in live :: u in mem && u in mem' && mem'[u] == mem[u]
  }

  // ---------------------------------------------------------------- where a block belongs

  /** bp goes between fl[i] and its successor. */
  predicate Fits(fl: seq<nat>, i: nat, bp: nat) {
    i < |fl| && fl[i] < bp && (i + 1 < |fl| ==> bp < fl[i + 1])
  }

  lemma {:induction false} SlotExists(fl: seq<nat>, bp: nat) returns (i: nat)
    requires |fl| >= 1 && fl[0] < bp && Increasing(fl) && bp !in fl
    ensures Fits(fl, i, bp)
  {
    i := 0;
    while i + 1 < |fl| && fl[i + 1] < bp
      invariant i < |fl| && fl[i] < bp
    {
      i := i + 1;
    }
  }

  lemma SlotUnique(fl: seq<nat>, bp: nat, i: nat, j: nat)
    requires Increasing(fl) && Fits(fl, i, bp) && Fits(fl, j, bp)
    ensures i == j
  {
  }

  /** A live block does not overlap its neighbours on the list. */
  lemma Neighbours(mem: Memory, fl: seq<nat>, live: map<nat, nat>, owner: map<nat, nat>, top: nat, bp: nat, i: nat)
    requires HeapOk(mem, fl, live, owner, top) && bp in live && Fits(fl, i, bp)
    ensures fl[i] in mem && fl[i] + mem[fl[i]].size <= bp
    ensures i + 1 < |fl| ==> bp + live[bp] <= fl[i + 1]
  {
    assert LiveOwns(mem, fl, live, owner, bp) && owner[bp] == bp;
    assert Link(mem, fl, i) && FreeOwns(mem, fl, owner, i);
    if i + 1 < |fl| {
      assert Link(mem, fl, i + 1) && FreeOwns(mem, fl, owner, i + 1);
      assert owner[fl[i + 1]] == fl[i + 1];
    }
  }

  // ---------------------------------------------------------------- linking a block in

  function Insert(fl: seq<nat>, i: nat, bp: nat): (r: seq<nat>)
    requires i < |fl|
    ensures |r| == |fl| + 1
    ensures forall k | 0 <= k < |r| :: r[k] == if k <= i then fl[k] else if k == i + 1 then bp else fl[k - 1]
    ensures forall a :: a in r <==> a in fl || a == bp
  {
    var r := fl[..i + 1] + [bp] + fl[i + 1..];
    assert fl == fl[..i + 1] + fl[i + 1..];
    r
  }

  function Drop(fl: seq<nat>, i: nat): (r: seq<nat>)
    requires i < |fl|
    ensures |r| == |fl| - 1
    ensures forall k | 0 <= k < |r| :: r[k] == if k < i then fl[k] else fl[k + 1]
    ensures forall a | a != fl[i] :: a in r <==> a in fl
  {
    var r := fl[..i] + fl[i + 1..];
    assert fl == fl[..i] + [fl[i]] + fl[i + 1..];
    r
  }

  /** A block linked in after fl[i], before any merging. */
  function Linked(mem: Memory, fl: seq<nat>, i: nat, bp: nat): (m: Memory)
    requires i < |fl| && fl[i] in mem && bp in mem
  {
    mem[bp := mem[bp].(ptr := Next(fl, i))][fl[i] := mem[fl[i]].(ptr := bp)]
  }

  lemma LinkedLink(mem: Memory, fl: seq<nat>, i: nat, bp: nat, k: nat)
    requires Cycle(mem, fl) && Fits(fl, i, bp) && bp in mem && mem[bp].size > 0 && k <= |fl| && fl[i] in mem
    ensures Link(Linked(mem, fl, i, bp), Insert(fl, i, bp), k)
  {
    var r := Insert(fl, i, bp);
    if k <= i { assert Link(mem, fl, k) && r[k] == fl[k]; }
    if k > i + 1 { assert Link(mem, fl, k - 1) && r[k] == fl[k - 1]; }
  }

  lemma LinkedCycle(mem: Memory, fl: seq<nat>, i: nat, bp: nat)
    requires Cycle(mem, fl) && Fits(fl, i, bp) && bp in mem && mem[bp].size > 0 && fl[i] in mem
    requires fl[i] + mem[fl[i]].size <= bp && (i + 1 < |fl| ==> bp + mem[bp].size <= fl[i + 1])
    ensures Cycle(Linked(mem, fl, i, bp), Insert(fl, i, bp))
  {
    var r, m := Insert(fl, i, bp), Linked(mem, fl, i, bp);
    forall k: nat | k < |r|
      ensures Link(m, r, k)
    {
      LinkedLink(mem, fl, i, bp, k);
    }
    forall k: nat | k + 1 < |r|
      ensures Apart(m, r, k)
    {
      if k < i { assert Apart(mem, fl, k); }
      if k > i + 1 { assert Apart(mem, fl, k - 1); }
    }
    assert Increasing(r);
  }

  lemma LinkedPartition(mem: Memory, fl: seq<nat>, live: map<nat, nat>, owner: map<nat, nat>, top: nat, i: nat, bp: nat)
    requires Partition(mem, fl, live, owner, top) && i < |fl| && fl[i] in mem && bp in live && bp in mem && bp != BASE
    ensures Partition(Linked(mem, fl, i, bp), Insert(fl, i, bp), live - {bp}, owner, top)
  {
    var r, m, live' := Insert(fl, i, bp), Linked(mem, fl, i, bp), live - {bp};
    assert LiveOwns(mem, fl, live, owner, bp);
    forall k: nat | k < |r|
      ensures FreeOwns(m, r, owner, k)
    {
      if k <= i { assert FreeOwns(mem, fl, owner, k); }
      if k > i + 1 { assert FreeOwns(mem, fl, owner, k - 1); }
    }
    forall a | a in live'
      ensures LiveOwns(m, r, live', owner, a)
    {
      assert LiveOwns(mem, fl, live, owner, a);
    }
    forall u | u in owner
      ensures Placed(m, r, live', owner, top, u)
    {
      assert Placed(mem, fl, live, owner, top, u);
    }
  }

  // ---------------------------------------------------------------- joining neighbours

  /** Neighbours fl[j] and fl[j + 1] joined into one block. */
  function Joined(mem: Memory, fl: seq<nat>, j: nat): (m: Memory)
    requires j + 1 < |fl| && fl[j] in mem && fl[j + 1] in mem
  {
    mem[fl[j] := Header(mem[fl[j + 1]].ptr, mem[fl[j]].size + mem[fl[j + 1]].size)]
  }

  function Reassign(owner: map<nat, nat>, b: nat, a: nat): (o: map<nat, nat>) {
    map u | u in owner :: if owner[u] == b then a else owner[u]
  }

  predicate Touching(mem: Memory, fl: seq<nat>, j: nat) {
    && 1 <= j && j + 1 < |fl| && fl[j] in mem && fl[j + 1] in mem
    && fl[j] + mem[fl[j]].size == fl[j + 1]
  }

  lemma JoinedCycle(mem: Memory, fl: seq<nat>, j: nat)
    requires Cycle(mem, fl) && Touching(mem, fl, j)
    ensures Cycle(Joined(mem, fl, j), Drop(fl, j + 1))
  {
    var r, m := Drop(fl, j + 1), Joined(mem, fl, j);
    forall k: nat | k < |r|
      ensures Link(m, r, k)
    {
      assert Link(mem, fl, k) && Link(mem, fl, k + 1);
    }
    forall k: nat | k + 1 < |r|
      ensures Apart(m, r, k)
    {
      if k < j { assert Apart(mem, fl, k); } else { assert Apart(mem, fl, k + 1); }
    }
    assert Increasing(r);
  }

  lemma PlacedJoined(mem: Memory, fl: seq<nat>, live: map<nat, nat>, owner: map<nat, nat>, top: nat, j: nat, u: nat)
    requires Touching(mem, fl, j) && fl[j] != BASE && u in owner && Placed(mem, fl, live, owner, top, u)
    requires fl[j] !in live && fl[j + 1] !in live
    ensures Placed(Joined(mem, fl, j), Drop(fl, j + 1), live, Reassign(owner, fl[j + 1], fl[j]), top, u)
  {
    assert Drop(fl, j + 1)[j] == fl[j];
  }

  lemma JoinedFree(mem: Memory, fl: seq<nat>, owner: map<nat, nat>, j: nat)
    requires Increasing(fl) && Touching(mem, fl, j) && FreePart(mem, fl, owner)
    ensures FreePart(Joined(mem, fl, j), Drop(fl, j + 1), Reassign(owner, fl[j + 1], fl[j]))
  {
    var r, m, o := Drop(fl, j + 1), Joined(mem, fl, j), Reassign(owner, fl[j + 1], fl[j]);
    forall k: nat | k < |r|
      ensures FreeOwns(m, r, o, k)
    {
      if k == j {
        assert FreeOwns(mem, fl, owner, j) && FreeOwns(mem, fl, owner, j + 1);
      } else {
        var k' := if k <= j then k else k + 1;
        assert FreeOwns(mem, fl, owner, k') && r[k] == fl[k'] && fl[k'] != fl[j] && fl[k'] != fl[j + 1];
      }
    }
  }

  lemma FreeNotLive(mem: Memory, fl: seq<nat>, live: map<nat, nat>, owner: map<nat, nat>, i: nat)
    requires i < |fl| && LivePart(mem, fl, live, owner)
    ensures fl[i] !in live
  {
    assert fl[i] in fl;
    assert forall a | a in live :: LiveOwns(mem, fl, live, owner, a);
  }

  lemma JoinedLive(mem: Memory, fl: seq<nat>, live: map<nat, nat>, owner: map<nat, nat>, j: nat)
    requires Touching(mem, fl, j) && LivePart(mem, fl, live, owner)
    ensures LivePart(Joined(mem, fl, j), Drop(fl, j + 1), live, Reassign(owner, fl[j + 1], fl[j]))
    ensures fl[j] !in live && fl[j + 1] !in live
  {
    FreeNotLive(mem, fl, live, owner, j);
    FreeNotLive(mem, fl, live, owner, j + 1);
    forall a | a in live
      ensures LiveOwns(Joined(mem, fl, j), Drop(fl, j + 1), live, Reassign(owner, fl[j + 1], fl[j]), a)
    {
      assert LiveOwns(mem, fl, live, owner, a);
    }
  }

  lemma JoinedPartition(mem: Memory, fl: seq<nat>, live: map<nat, nat>, owner: map<nat, nat>, top: nat, j: nat)
    requires Increasing(fl) && Touching(mem, fl, j) && fl[0] == BASE && Partition(mem, fl, live, owner, top)
    ensures Partition(Joined(mem, fl, j), Drop(fl, j + 1), live, Reassign(owner, fl[j + 1], fl[j]), top)
  {
    JoinedFree(mem, fl, owner, j);
    JoinedLive(mem, fl, live, owner, j);
    forall u | u in owner
      ensures Placed(Joined(mem, fl, j), Drop(fl, j + 1), live, Reassign(owner, fl[j + 1], fl[j]), top, u)
    {
      PlacedJoined(mem, fl, live, owner, top, j, u);
    }
  }

  // ---------------------------------------------------------------- free

  /** Memory, list and owners while a block is being freed. */
  datatype Stage = Stage(mem: Memory, fl: seq<nat>, owner: map<nat, nat>)

  function LinkStage(x: Stage, i: nat, bp: nat): (y: Stage)
    requires i < |x.fl| && x.fl[i] in x.mem && bp in x.mem
  {
    Stage(Linked(x.mem, x.fl, i, bp), Insert(x.fl, i, bp), x.owner)
  }

  /** fl[j] absorbs its successor if they touch. */
  function JoinStage(x: Stage, j: nat): (y: Stage) {
    if Touching(x.mem, x.fl, j)
    then Stage(Joined(x.mem, x.fl, j), Drop(x.fl, j + 1), Reassign(x.owner, x.fl[j + 1], x.fl[j]))
    else x
  }

  /** Everything but the gaps after positions lo and hi is known to be coalesced. */
  predicate CoalescedBut(mem: Memory, fl: seq<nat>, lo: nat, hi: nat) {
    forall k: nat | k + 1 < |fl| && k != lo && k != hi :: Gap(mem, fl, k)
  }

  lemma LinkedGaps(mem: Memory, fl: seq<nat>, i: nat, bp: nat)
    requires Coalesced(mem, fl) && i < |fl| && fl[i] in mem && bp in mem && bp !in fl
    ensures CoalescedBut(Linked(mem, fl, i, bp), Insert(fl, i, bp), i, i + 1)
  {
    var m, r := Linked(mem, fl, i, bp), Insert(fl, i, bp);
    forall k: nat | k + 1 < |r| && k != i && k != i + 1
      ensures Gap(m, r, k)
    {
      var k' := if k < i then k else k - 1;
      assert Gap(mem, fl, k') && r[k] == fl[k'] && r[k + 1] == fl[k' + 1];
    }
  }

  lemma LinkStageKeeps(x: Stage, live: map<nat, nat>, top: nat, i: nat, bp: nat)
    requires HeapOk(x.mem, x.fl, live, x.owner, top) && Coalesced(x.mem, x.fl) && bp in live && Fits(x.fl, i, bp)
    ensures bp in x.mem && x.fl[i] in x.mem
    ensures var y := LinkStage(x, i, bp);
            HeapOk(y.mem, y.fl, live - {bp}, y.owner, top) && CoalescedBut(y.mem, y.fl, i, i + 1)
  {
    Neighbours(x.mem, x.fl, live, x.owner, top, bp, i);
    assert LiveOwns(x.mem, x.fl, live, x.owner, bp) && Placed(x.mem, x.fl, live, x.owner, top, bp);
    LinkedCycle(x.mem, x.fl, i, bp);
    LinkedPartition(x.mem, x.fl, live, x.owner, top, i, bp);
    LinkedGaps(x.mem, x.fl, i, bp);
  }

  lemma JoinStageKeeps(x: Stage, live: map<nat, nat>, top: nat, j: nat)
    requires HeapOk(x.mem, x.fl, live, x.owner, top)
    ensures var y := JoinStage(x, j); HeapOk(y.mem, y.fl, live, y.owner, top)
  {
    if Touching(x.mem, x.fl, j) {
      JoinedCycle(x.mem, x.fl, j);
      JoinedPartition(x.mem, x.fl, live, x.owner, top, j);
    }
  }

  lemma ApartNotTouching(mem: Memory, fl: seq<nat>, j: nat)
    requires Cycle(mem, fl) && j + 1 < |fl| && !Touching(mem, fl, j)
    ensures Gap(mem, fl, j)
  {
    assert Apart(mem, fl, j) && Link(mem, fl, j) && Link(mem, fl, j + 1);
  }

  lemma JoinedGaps(mem: Memory, fl: seq<nat>, lo: nat, j: nat)
    requires Cycle(mem, fl) && lo <= j && CoalescedBut(mem, fl, lo, j) && Touching(mem, fl, j)
    ensures var m, r := Joined(mem, fl, j), Drop(fl, j + 1);
            if lo == j then Coalesced(m, r) else CoalescedBut(m, r, lo, lo)
  {
    var m, r := Joined(mem, fl, j), Drop(fl, j + 1);
    forall k: nat | k + 1 < |r| && (k != lo || lo == j)
      ensures Gap(m, r, k)
    {
      var k' := if k < j then k else k + 1;
      assert Gap(mem, fl, k') && r[k + 1] == fl[k' + 1];
    }
  }

  /** A join leaves a gap after fl[j]; other gaps stay. */
  lemma JoinStageGaps(x: Stage, lo: nat, j: nat)
    requires Cycle(x.mem, x.fl) && lo <= j && CoalescedBut(x.mem, x.fl, lo, j)
    ensures var y := JoinStage(x, j);
            if lo == j then Coalesced(y.mem, y.fl) else CoalescedBut(y.mem, y.fl, lo, lo)
  {
    if Touching(x.mem, x.fl, j) {
      JoinedGaps(x.mem, x.fl, lo, j);
    } else if j + 1 < |x.fl| {
      ApartNotTouching(x.mem, x.fl, j);
    }
  }

  /** free: link the block in after fl[i], join it with its successor, join its predecessor with it. */
  function Freed(x: Stage, i: nat, bp: nat): (y: Stage)
    requires i < |x.fl| && x.fl[i] in x.mem && bp in x.mem
  {
    JoinStage(JoinStage(LinkStage(x, i, bp), i + 1), i)
  }

  lemma FreedOk(x: Stage, live: map<nat, nat>, top: nat, i: nat, bp: nat)
    requires HeapOk(x.mem, x.fl, live, x.owner, top) && Coalesced(x.mem, x.fl) && bp in live && Fits(x.fl, i, bp)
    ensures bp in x.mem && x.fl[i] in x.mem
    ensures var y := Freed(x, i, bp);
            HeapOk(y.mem, y.fl, live - {bp}, y.owner, top) && Coalesced(y.mem, y.fl)
  {
    LinkStageKeeps(x, live, top, i, bp);
    var y := LinkStage(x, i, bp);
    JoinStageKeeps(y, live - {bp}, top, i + 1);
    JoinStageGaps(y, i, i + 1);
    var z := JoinStage(y, i + 1);
    JoinStageKeeps(z, live - {bp}, top, i);
    JoinStageGaps(z, i, i);
  }

  // ---------------------------------------------------------------- malloc

  /** An exact fit: fl[i] comes off the list. */
  function Unlinked(mem: Memory, fl: seq<nat>, i: nat): (m: Memory)
    requires 1 <= i < |fl| && fl[i - 1] in mem && fl[i] in mem
  {
    mem[fl[i - 1] := mem[fl[i - 1]].(ptr := mem[fl[i]].ptr)]
  }

  lemma UnlinkedCycle(mem: Memory, fl: seq<nat>, i: nat)
    requires Cycle(mem, fl) && Coalesced(mem, fl) && 1 <= i < |fl| && fl[i - 1] in mem && fl[i] in mem
    ensures Cycle(Unlinked(mem, fl, i), Drop(fl, i)) && Coalesced(Unlinked(mem, fl, i), Drop(fl, i))
  {
    var r, m := Drop(fl, i), Unlinked(mem, fl, i);
    assert Link(mem, fl, i);
    forall k: nat | k < |r|
      ensures Link(m, r, k)
    {
      assert Link(mem, fl, k) && Link(mem, fl, k + 1);
    }
    forall k: nat | k + 1 < |r|
      ensures Apart(m, r, k) && Gap(m, r, k)
    {
      assert Gap(mem, fl, k) && Gap(mem, fl, k + 1);
    }
    assert Increasing(r);
  }

  lemma UnlinkedLive(mem: Memory, fl: seq<nat>, live: map<nat, nat>, owner: map<nat, nat>, i: nat)
    requires Increasing(fl) && 1 <= i < |fl| && fl[i - 1] in mem && fl[i] in mem && mem[fl[i]].size > 0
    requires LivePart(mem, fl, live, owner) && FreePart(mem, fl, owner)
    ensures LivePart(Unlinked(mem, fl, i), Drop(fl, i), live[fl[i] := mem[fl[i]].size], owner)
  {
    var a, r, m := fl[i], Drop(fl, i), Unlinked(mem, fl, i);
    var live' := live[a := mem[a].size];
    forall b | b in live'
      ensures LiveOwns(m, r, live', owner, b)
    {
      if b != a {
        assert LiveOwns(mem, fl, live, owner, b) && fl[i - 1] in fl;
      } else {
        assert FreeOwns(mem, fl, owner, i);
        assert a !in r;
      }
    }
  }

  lemma UnlinkedUnits(mem: Memory, fl: seq<nat>, live: map<nat, nat>, owner: map<nat, nat>, top: nat, i: nat, u: nat)
    requires 1 <= i < |fl| && fl[i - 1] in mem && fl[i] in mem && fl[i] !in live
    requires u in owner && Placed(mem, fl, live, owner, top, u)
    ensures Placed(Unlinked(mem, fl, i), Drop(fl, i), live[fl[i] := mem[fl[i]].size], owner, top, u)
  {
  }

  lemma UnlinkedUnitPart(mem: Memory, fl: seq<nat>, live: map<nat, nat>, owner: map<nat, nat>, top: nat, i: nat)
    requires 1 <= i < |fl| && fl[i - 1] in mem && fl[i] in mem && fl[i] !in live && UnitPart(mem, fl, live, owner, top)
    ensures UnitPart(Unlinked(mem, fl, i), Drop(fl, i), live[fl[i] := mem[fl[i]].size], owner, top)
  {
    forall u | u in owner
      ensures Placed(Unlinked(mem, fl, i), Drop(fl, i), live[fl[i] := mem[fl[i]].size], owner, top, u)
    {
      UnlinkedUnits(mem, fl, live, owner, top, i, u);
    }
  }

  lemma UnlinkedFree(mem: Memory, fl: seq<nat>, owner: map<nat, nat>, i: nat)
    requires 1 <= i < |fl| && fl[i - 1] in mem && fl[i] in mem && FreePart(mem, fl, owner)
    ensures FreePart(Unlinked(mem, fl, i), Drop(fl, i), owner)
  {
    forall k: nat | k < |fl| - 1
      ensures FreeOwns(Unlinked(mem, fl, i), Drop(fl, i), owner, k)
    {
      assert FreeOwns(mem, fl, owner, if k < i then k else k + 1);
    }
  }

  lemma UnlinkedPartition(mem: Memory, fl: seq<nat>, live: map<nat, nat>, owner: map<nat, nat>, top: nat, i: nat)
    requires Increasing(fl) && Partition(mem, fl, live, owner, top)
    requires 1 <= i < |fl| && fl[i - 1] in mem && fl[i] in mem && mem[fl[i]].size > 0
    ensures Partition(Unlinked(mem, fl, i), Drop(fl, i), live[fl[i] := mem[fl[i]].size], owner, top)
  {
    UnlinkedFree(mem, fl, owner, i);
    UnlinkedLive(mem, fl, live, owner, i);
    FreeNotLive(mem, fl, live, owner, i);
    UnlinkedUnitPart(mem, fl, live, owner, top, i);
  }

  /** The tail end of fl[i], k units, split off. */
  function Split(mem: Memory, a: nat, k: nat, q: nat): (m: Memory)
    requires a in mem && k < mem[a].size && q in mem
  {
    mem[a := mem[a].(size := mem[a].size - k)][q := mem[q].(size := k)]
  }

  function GiveTail(owner: map<nat, nat>, q: nat, k: nat): (o: map<nat, nat>) {
    map u | u in owner :: if q <= u < q + k then q else owner[u]
  }

  /** q begins the last k units of free block fl[i]. */
  predicate TailAt(mem: Memory, fl: seq<nat>, i: nat, k: nat, q: nat) {
    1 <= i < |fl| && fl[i] in mem && 0 < k < mem[fl[i]].size && q == fl[i] + mem[fl[i]].size - k && q in mem && q !in fl
  }

  lemma SplitCycle(mem: Memory, fl: seq<nat>, i: nat, k: nat, q: nat)
    requires Cycle(mem, fl) && Coalesced(mem, fl) && TailAt(mem, fl, i, k, q)
    ensures Cycle(Split(mem, fl[i], k, q), fl) && Coalesced(Split(mem, fl[i], k, q), fl)
  {
    var m := Split(mem, fl[i], k, q);
    forall j: nat | j < |fl|
      ensures Link(m, fl, j)
    {
      assert Link(mem, fl, j) && fl[j] in fl;
    }
    forall j: nat | j + 1 < |fl|
      ensures Apart(m, fl, j) && Gap(m, fl, j)
    {
      assert Gap(mem, fl, j) && fl[j] in fl;
    }
  }

  lemma SplitFree(mem: Memory, fl: seq<nat>, owner: map<nat, nat>, i: nat, k: nat, q: nat)
    requires Increasing(fl) && TailAt(mem, fl, i, k, q) && FreePart(mem, fl, owner)
    ensures FreePart(Split(mem, fl[i], k, q), fl, GiveTail(owner, q, k))
  {
    var m, o := Split(mem, fl[i], k, q), GiveTail(owner, q, k);
    assert FreeOwns(mem, fl, owner, i);
    forall j: nat | j < |fl|
      ensures FreeOwns(m, fl, o, j)
    {
      assert FreeOwns(mem, fl, owner, j);
      assert j != i ==> fl[j] != fl[i] && fl[j] in fl;
    }
  }

  lemma SplitLive(mem: Memory, fl: seq<nat>, live: map<nat, nat>, owner: map<nat, nat>, i: nat, k: nat, q: nat)
    requires TailAt(mem, fl, i, k, q) && LivePart(mem, fl, live, owner) && FreeOwns(mem, fl, owner, i)
    ensures q !in live && LivePart(Split(mem, fl[i], k, q), fl, live[q := k], GiveTail(owner, q, k))
  {
    assert owner[q] == fl[i] && fl[i] in fl;
    forall b | b in live
      ensures b != q && LiveOwns(Split(mem, fl[i], k, q), fl, live[q := k], GiveTail(owner, q, k), b)
    {
      assert LiveOwns(mem, fl, live, owner, b);
    }
  }

  lemma SplitPlaced(mem: Memory, fl: seq<nat>, live: map<nat, nat>, owner: map<nat, nat>, top: nat, i: nat, k: nat,
                    q: nat, u: nat)
    requires TailAt(mem, fl, i, k, q) && q !in live && u in owner && Placed(mem, fl, live, owner, top, u)
    ensures Placed(Split(mem, fl[i], k, q), fl, live[q := k], GiveTail(owner, q, k), top, u)
  {
    if !(q <= u < q + k) && owner[u] in live { assert owner[u] != q; }
  }

  lemma SplitUnits(mem: Memory, fl: seq<nat>, live: map<nat, nat>, owner: map<nat, nat>, top: nat, i: nat, k: nat,
                   q: nat)
    requires TailAt(mem, fl, i, k, q) && q !in live && UnitPart(mem, fl, live, owner, top)
    ensures UnitPart(Split(mem, fl[i], k, q), fl, live[q := k], GiveTail(owner, q, k), top)
  {
    forall u | u in owner
      ensures Placed(Split(mem, fl[i], k, q), fl, live[q := k], GiveTail(owner, q, k), top, u)
    {
      SplitPlaced(mem, fl, live, owner, top, i, k, q, u);
    }
  }

  lemma SplitPartition(mem: Memory, fl: seq<nat>, live: map<nat, nat>, owner: map<nat, nat>, top: nat, i: nat, k: nat,
                       q: nat)
    requires Increasing(fl) && TailAt(mem, fl, i, k, q) && Partition(mem, fl, live, owner, top)
    ensures q !in live && Partition(Split(mem, fl[i], k, q), fl, live[q := k], GiveTail(owner, q, k), top)
  {
    SplitFree(mem, fl, owner, i, k, q);
    assert FreeOwns(mem, fl, owner, i);
    SplitLive(mem, fl, live, owner, i, k, q);
    SplitUnits(mem, fl, live, owner, top, i, k, q);
  }

  // ---------------------------------------------------------------- sbrk

  function FreshUnit(u: nat): Header { Header(0, 0) }

  function OwnedBy(r: nat, u: nat): nat { r }

  /** sbrk hands out nu units from r, above everything handed out before, and the caller writes a header. */
  function Grown(mem: Memory, r: nat, nu: nat): (m: Memory) {
    (mem + map u: nat | r <= u < r + nu :: FreshUnit(u))[r := Header(0, nu)]
  }

  function GrownOwner(owner: map<nat, nat>, r: nat, nu: nat): (o: map<nat, nat>) {
    owner + map u: nat | r <= u < r + nu :: OwnedBy(r, u)
  }

  lemma GrownCycle(mem: Memory, fl: seq<nat>, r: nat, nu: nat)
    requires Cycle(mem, fl) && forall u | u in mem :: u < r
    ensures Cycle(Grown(mem, r, nu), fl) && (Coalesced(mem, fl) ==> Coalesced(Grown(mem, r, nu), fl))
  {
    var m := Grown(mem, r, nu);
    forall j: nat | j < |fl|
      ensures Link(m, fl, j)
    {
      assert Link(mem, fl, j);
    }
    forall j: nat | j + 1 < |fl|
      ensures Apart(m, fl, j) && (Coalesced(mem, fl) ==> Gap(m, fl, j))
    {
      assert Apart(mem, fl, j);
      assert Coalesced(mem, fl) ==> Gap(mem, fl, j);
    }
  }

  lemma GrownPartition(mem: Memory, fl: seq<nat>, live: map<nat, nat>, owner: map<nat, nat>, top: nat, r: nat, nu: nat)
    requires Partition(mem, fl, live, owner, top) && top <= r && BASE < r && nu > 0
    requires (forall u | u in mem :: u < r) && (forall j: nat | j < |fl| :: fl[j] in mem)
    ensures r !in live && Partition(Grown(mem, r, nu), fl, live[r := nu], GrownOwner(owner, r, nu), r + nu)
  {
    var m, o, live' := Grown(mem, r, nu), GrownOwner(owner, r, nu), live[r := nu];
    assert r in live ==> LiveOwns(mem, fl, live, owner, r);
    forall j: nat | j < |fl|
      ensures FreeOwns(m, fl, o, j)
    {
      assert FreeOwns(mem, fl, owner, j);
      assert forall u | u in owner :: Placed(mem, fl, live, owner, top, u);
    }
    forall a | a in live'
      ensures LiveOwns(m, fl, live', o, a)
    {
      if a in live { assert LiveOwns(mem, fl, live, owner, a); }
      assert forall u | u in owner :: Placed(mem, fl, live, owner, top, u);
    }
    forall u | u in o
      ensures Placed(m, fl, live', o, r + nu, u)
    {
      if u in owner { assert Placed(mem, fl, live, owner, top, u); }
    }
  }

  // ---------------------------------------------------------------- whole operations

  predicate Tidy(mem: Memory, fl: seq<nat>, live: map<nat, nat>, owner: map<nat, nat>, top: nat) {
    HeapOk(mem, fl, live, owner, top) && Coalesced(mem, fl)
  }

  /** A unit of a live allocation is no free block's header. */
  lemma LiveUnitNotFree(mem: Memory, fl: seq<nat>, live: map<nat, nat>, owner: map<nat, nat>, top: nat, u: nat)
    requires HeapOk(mem, fl, live, owner, top) && u in owner && owner[u] in live
    ensures u in mem && u !in fl
  {
    assert LiveOwns(mem, fl, live, owner, owner[u]) && Placed(mem, fl, live, owner, top, u);
    forall j: nat | j < |fl|
      ensures fl[j] != u
    {
      assert FreeOwns(mem, fl, owner, j) && Link(mem, fl, j) && fl[j] in fl;
    }
  }

  /** Memory that changes only at free headers and at q leaves the other allocations alone. */
  lemma OthersKept(mem: Memory, fl: seq<nat>, live: map<nat, nat>, owner: map<nat, nat>, top: nat, mem': Memory,
                   live': map<nat, nat>, q: nat)
    requires HeapOk(mem, fl, live, owner, top) && q in owner && owner[q] !in live'
    requires forall a | a in live' :: a in live
    requires forall u | u in mem && u !in fl && u != q :: u in mem' && mem'[u] == mem[u]
    ensures LiveKept(live', owner, mem, mem')
  {
    forall u | u in owner && owner[u] in live'
      ensures u in mem && u in mem' && mem'[u] == mem[u]
    {
      LiveUnitNotFree(mem, fl, live, owner, top, u);
    }
  }

  /** Free block fl[j] has k units or more. */
  predicate Big(mem: Memory, fl: seq<nat>, j: nat, k: nat)
    requires j < |fl|
  {
    fl[j] in mem && mem[fl[j]].size >= k
  }

  predicate HasBlock(mem: Memory, fl: seq<nat>, k: nat) {
    exists j: nat :: j < |fl| && Big(mem, fl, j, k)
  }

  lemma FreedTidy(x: Stage, live: map<nat, nat>, top: nat, i: nat, bp: nat)
    requires Tidy(x.mem, x.fl, live, x.owner, top) && bp in live && Fits(x.fl, i, bp)
    ensures bp in x.mem && x.fl[i] in x.mem
    ensures var y := Freed(x, i, bp); Tidy(y.mem, y.fl, live - {bp}, y.owner, top)
  {
    FreedOk(x, live, top, i, bp);
  }

  lemma FreedKeeps(x: Stage, live: map<nat, nat>, top: nat, i: nat, bp: nat)
    requires HeapOk(x.mem, x.fl, live, x.owner, top) && bp in live && Fits(x.fl, i, bp) && bp in x.mem
             && x.fl[i] in x.mem
    ensures var y := Freed(x, i, bp);
            && LiveKept(live - {bp}, x.owner, x.mem, y.mem) && x.fl[i] in y.fl && HasBlock(y.mem, y.fl, live[bp])
            && y.owner.Keys == x.owner.Keys
  {
    var y := Freed(x, i, bp);
    assert LiveOwns(x.mem, x.fl, live, x.owner, bp);
    FreedOutside(x, i, bp);
    FreedMemory(x, i, bp);
    assert x.fl[i] in x.fl;
    OthersKept(x.mem, x.fl, live, x.owner, top, y.mem, live - {bp}, bp);
  }

  /** What the writes of free touch. */
  lemma FreedOutside(x: Stage, i: nat, bp: nat)
    requires i < |x.fl| && x.fl[i] in x.mem && bp in x.mem && bp !in x.fl && Increasing(x.fl)
    ensures var y := Freed(x, i, bp);
            && (forall u | u in x.mem && u != x.fl[i] && u != bp :: u in y.mem && y.mem[u] == x.mem[u])
            && y.owner.Keys == x.owner.Keys
  {
    var y1 := LinkStage(x, i, bp);
    assert y1.fl[i] == x.fl[i] && y1.fl[i + 1] == bp;
    var y2 := JoinStage(y1, i + 1);
    JoinOutside(y1, i + 1);
    assert y2.fl[i] == y2.fl[..i + 2][i] == y1.fl[..i + 2][i] == x.fl[i];
    JoinOutside(y2, i);
  }

  /** A join writes the header that absorbs the next, and no other. */
  lemma JoinOutside(x: Stage, j: nat)
    requires j < |x.fl| && x.fl[j] in x.mem
    ensures var y := JoinStage(x, j);
            && (forall u | u in x.mem && u != x.fl[j] :: u in y.mem && y.mem[u] == x.mem[u])
            && y.owner.Keys == x.owner.Keys && x.fl[j] in y.mem && j < |y.fl| && y.fl[..j + 1] == x.fl[..j + 1]
  {
  }

  /** What they come to. */
  lemma FreedMemory(x: Stage, i: nat, bp: nat)
    requires i < |x.fl| && x.fl[i] in x.mem && bp in x.mem && bp !in x.fl && Increasing(x.fl)
    ensures var y := Freed(x, i, bp); x.fl[i] in y.fl && HasBlock(y.mem, y.fl, x.mem[bp].size)
  {
    var y1 := LinkStage(x, i, bp);
    assert y1.fl[i] == x.fl[i] && y1.fl[i + 1] == bp;
    var y2 := JoinStage(y1, i + 1);
    assert y2.fl[i] == x.fl[i] && y2.fl[i + 1] == bp && bp in y2.mem && y2.mem[bp].size >= x.mem[bp].size;
    var y3 := JoinStage(y2, i);
    assert y3.fl[i] == x.fl[i];
    assert if Touching(y2.mem, y2.fl, i) then Big(y3.mem, y3.fl, i, x.mem[bp].size)
           else Big(y3.mem, y3.fl, i + 1, x.mem[bp].size);
  }

  /** f is a free block of before, of the size it had, or it has taken in the size units from bp on. */
  predicate AsBefore(mem: Memory, fl: seq<nat>, bp: nat, size: nat, mem': Memory, f: nat) {
    && f in mem'
    && (|| (f in fl && f in mem && mem'[f].size == mem[f].size)
        || (f <= bp && bp + size <= f + mem'[f].size))
  }

  /** Freeing a block leaves every free block as it was, but for the one that takes it in. */
  lemma FreedBlocks(x: Stage, i: nat, bp: nat, f: nat)
    requires i < |x.fl| && x.fl[i] in x.mem && bp in x.mem && bp !in x.fl && Increasing(x.fl)
    requires f in Freed(x, i, bp).fl && (f in x.fl ==> f in x.mem)
    ensures AsBefore(x.mem, x.fl, bp, x.mem[bp].size, Freed(x, i, bp).mem, f)
  {
    FreedOutside(x, i, bp);
    var y1 := LinkStage(x, i, bp);
    assert y1.fl[i] == x.fl[i] && y1.fl[i + 1] == bp;
    var y2 := JoinStage(y1, i + 1);
    assert y2.fl[i] == x.fl[i] && y2.fl[i + 1] == bp && bp in y2.mem && y2.mem[bp].size >= x.mem[bp].size;
    assert y2.mem[x.fl[i]].size == x.mem[x.fl[i]].size;
    assert f in y2.fl && f in y1.fl;
  }

  lemma TailFound(mem: Memory, fl: seq<nat>, live: map<nat, nat>, owner: map<nat, nat>, top: nat, i: nat, k: nat)
    requires Tidy(mem, fl, live, owner, top) && i < |fl| && fl[i] in mem && 0 < k < mem[fl[i]].size
    ensures TailAt(mem, fl, i, k, fl[i] + mem[fl[i]].size - k)
    ensures fl[i] + mem[fl[i]].size - k in owner && owner[fl[i] + mem[fl[i]].size - k] == fl[i]
  {
    var q := fl[i] + mem[fl[i]].size - k;
    assert FreeOwns(mem, fl, owner, i) && Link(mem, fl, i) && owner[q] == fl[i];
    assert Placed(mem, fl, live, owner, top, q);
    forall j: nat | j < |fl|
      ensures fl[j] != q
    {
      assert FreeOwns(mem, fl, owner, j) && Link(mem, fl, j);
    }
  }

  lemma SplitTidy(mem: Memory, fl: seq<nat>, live: map<nat, nat>, owner: map<nat, nat>, top: nat, i: nat, k: nat,
                  q: nat)
    requires Tidy(mem, fl, live, owner, top) && TailAt(mem, fl, i, k, q)
    ensures q !in live && Tidy(Split(mem, fl[i], k, q), fl, live[q := k], GiveTail(owner, q, k), top)
  {
    SplitCycle(mem, fl, i, k, q);
    SplitPartition(mem, fl, live, owner, top, i, k, q);
  }

  lemma SplitKeeps(mem: Memory, fl: seq<nat>, live: map<nat, nat>, owner: map<nat, nat>, top: nat, i: nat, k: nat,
                   q: nat)
    requires HeapOk(mem, fl, live, owner, top) && i < |fl| && fl[i] in mem && k < mem[fl[i]].size
    requires q in mem && q in owner && owner[q] == fl[i] && fl[i] !in live
    ensures LiveKept(live, owner, mem, Split(mem, fl[i], k, q))
  {
    assert fl[i] in fl;
    OthersKept(mem, fl, live, owner, top, Split(mem, fl[i], k, q), live, q);
  }

  lemma UnlinkedTidy(mem: Memory, fl: seq<nat>, live: map<nat, nat>, owner: map<nat, nat>, top: nat, i: nat)
    requires Tidy(mem, fl, live, owner, top) && 1 <= i < |fl| && fl[i - 1] in mem && fl[i] in mem
    ensures fl[i] !in live
    ensures Tidy(Unlinked(mem, fl, i), Drop(fl, i), live[fl[i] := mem[fl[i]].size], owner, top)
    ensures LiveKept(live, owner, mem, Unlinked(mem, fl, i))
  {
    assert Link(mem, fl, i) && FreeOwns(mem, fl, owner, i);
    UnlinkedCycle(mem, fl, i);
    UnlinkedPartition(mem, fl, live, owner, top, i);
    FreeNotLive(mem, fl, live, owner, i);
    assert fl[i - 1] in fl;
    OthersKept(mem, fl, live, owner, top, Unlinked(mem, fl, i), live, fl[i]);
  }

  lemma BelowTop(mem: Memory, fl: seq<nat>, live: map<nat, nat>, owner: map<nat, nat>, top: nat)
    requires HeapOk(mem, fl, live, owner, top)
    ensures forall u | u in mem :: u == BASE || u < top
    ensures forall u | u in owner :: u in mem && u < top
    ensures forall j: nat | j < |fl| :: fl[j] in mem
  {
    assert forall u | u in owner :: Placed(mem, fl, live, owner, top, u);
    forall j: nat | j < |fl| ensures fl[j] in mem { assert Link(mem, fl, j); }
  }

  lemma GrownTidy(mem: Memory, fl: seq<nat>, live: map<nat, nat>, owner: map<nat, nat>, top: nat, r: nat, nu: nat)
    requires Tidy(mem, fl, live, owner, top) && top <= r && BASE < r && nu > 0
    ensures r !in live && Tidy(Grown(mem, r, nu), fl, live[r := nu], GrownOwner(owner, r, nu), r + nu)
  {
    BelowTop(mem, fl, live, owner, top);
    GrownCycle(mem, fl, r, nu);
    GrownPartition(mem, fl, live, owner, top, r, nu);
  }

  lemma GrownKeeps(mem: Memory, fl: seq<nat>, live: map<nat, nat>, owner: map<nat, nat>, top: nat, r: nat, nu: nat)
    requires HeapOk(mem, fl, live, owner, top) && top <= r && BASE < r
    ensures LiveKept(live, owner, mem, Grown(mem, r, nu))
    ensures forall u | u in owner :: u in GrownOwner(owner, r, nu) && GrownOwner(owner, r, nu)[u] == owner[u]
  {
    BelowTop(mem, fl, live, owner, top);
  }
}
