/** Units are conserved: what is free and what is allocated add up to what sbrk handed out. */
module HeapConservation {
  import opened HeapModel

  ghost function Range(a: nat, k: nat): (r: set<nat>)
    ensures forall u: nat :: u in r <==> a <= u < a + k
    ensures |r| == k
  {
    if k == 0 then {} else Range(a, k - 1) + {a + k - 1}
  }

  /** The units of the first n free blocks. */
  ghost function FreeUnits(mem: Memory, fl: seq<nat>, n: nat): (s: nat)
    requires n <= |fl| && forall j: nat | j < n :: fl[j] in mem
  {
    if n == 0 then 0 else FreeUnits(mem, fl, n - 1) + mem[fl[n - 1]].size
  }

  ghost function LiveUnits(live: map<nat, nat>): (s: nat)
    decreases |live|
  {
    if live == map[] then 0
    else
      var a :| a in live;
      assert |live - {a}| < |live|  by { assert (live - {a}).Keys == live.Keys - {a}; }
      live[a] + LiveUnits(live - {a})
  }

  ghost function OwnedByAny(owner: map<nat, nat>, blocks: set<nat>): (s: set<nat>) {
    set u | u in owner && owner[u] in blocks
  }

  /** A block's units are an interval of its size. */
  lemma BlockUnits(owner: map<nat, nat>, a: nat, size: nat)
    requires Owns(owner, a, size) && forall u | u in owner && owner[u] == a :: a <= u < a + size
    ensures |OwnedByAny(owner, {a})| == size
  {
    assert OwnedByAny(owner, {a}) == Range(a, size);
  }

  lemma OneMore(owner: map<nat, nat>, blocks: set<nat>, a: nat)
    requires a !in blocks
    ensures |OwnedByAny(owner, blocks + {a})| == |OwnedByAny(owner, blocks)| + |OwnedByAny(owner, {a})|
  {
    assert OwnedByAny(owner, blocks + {a}) == OwnedByAny(owner, blocks) + OwnedByAny(owner, {a});
    assert OwnedByAny(owner, blocks) !! OwnedByAny(owner, {a});
  }

  ghost function Prefix(fl: seq<nat>, n: nat): (s: set<nat>)
    requires n <= |fl|
  {
    set j: nat | j < n :: fl[j]
  }

  /** A unit owned by a free block lies in it. */
  lemma FreeUnitInside(mem: Memory, fl: seq<nat>, live: map<nat, nat>, owner: map<nat, nat>, top: nat, j: nat, u: nat)
    requires HeapOk(mem, fl, live, owner, top) && j < |fl| && fl[j] in mem && u in owner && owner[u] == fl[j]
    ensures fl[j] <= u < fl[j] + mem[fl[j]].size
  {
    FreeNotLive(mem, fl, live, owner, j);
    assert Placed(mem, fl, live, owner, top, u);
  }

  lemma {:induction false} FreeUnitsCount(mem: Memory, fl: seq<nat>, live: map<nat, nat>, owner: map<nat, nat>,
                                          top: nat, n: nat)
    requires HeapOk(mem, fl, live, owner, top) && n <= |fl|
    requires forall j: nat | j < |fl| :: fl[j] in mem
    ensures FreeUnits(mem, fl, n) == |OwnedByAny(owner, Prefix(fl, n))|
  {
    if n == 0 {
      assert OwnedByAny(owner, Prefix(fl, 0)) == {};
    } else {
      FreeUnitsCount(mem, fl, live, owner, top, n - 1);
      var a := fl[n - 1];
      assert FreeOwns(mem, fl, owner, n - 1);
      forall u | u in owner && owner[u] == a
        ensures a <= u < a + mem[a].size
      {
        FreeUnitInside(mem, fl, live, owner, top, n - 1, u);
      }
      BlockUnits(owner, a, mem[a].size);
      assert Prefix(fl, n) == Prefix(fl, n - 1) + {a};
      OneMore(owner, Prefix(fl, n - 1), a);
    }
  }

  lemma {:induction false} LiveUnitsCount(mem: Memory, fl: seq<nat>, live: map<nat, nat>, owner: map<nat, nat>,
                                          top: nat, some: map<nat, nat>)
    requires HeapOk(mem, fl, live, owner, top) && forall a | a in some :: a in live && some[a] == live[a]
    ensures LiveUnits(some) == |OwnedByAny(owner, some.Keys)|
    decreases |some|
  {
    if some == map[] {
      assert OwnedByAny(owner, some.Keys) == {};
    } else {
      var a :| a in some && LiveUnits(some) == some[a] + LiveUnits(some - {a});
      assert (some - {a}).Keys == some.Keys - {a};
      LiveUnitsCount(mem, fl, live, owner, top, some - {a});
      assert LiveOwns(mem, fl, live, owner, a);
      forall u | u in owner && owner[u] == a
        ensures a <= u < a + live[a]
      {
        assert Placed(mem, fl, live, owner, top, u);
      }
      BlockUnits(owner, a, live[a]);
      assert some.Keys == (some - {a}).Keys + {a};
      OneMore(owner, (some - {a}).Keys, a);
    }
  }

  /** Free units plus allocated units are the units obtained from sbrk. */
  lemma UnitsConserved(mem: Memory, fl: seq<nat>, live: map<nat, nat>, owner: map<nat, nat>, top: nat)
    requires HeapOk(mem, fl, live, owner, top)
    ensures forall j: nat | j < |fl| :: fl[j] in mem
    ensures FreeUnits(mem, fl, |fl|) + LiveUnits(live) == |owner.Keys|
  {
    BelowTop(mem, fl, live, owner, top);
    FreeUnitsCount(mem, fl, live, owner, top, |fl|);
    LiveUnitsCount(mem, fl, live, owner, top, live);
    var free, used := OwnedByAny(owner, Prefix(fl, |fl|)), OwnedByAny(owner, live.Keys);
    forall u | u in owner
      ensures u in free + used && !(u in free && u in used)
    {
      assert Placed(mem, fl, live, owner, top, u);
      if owner[u] in live { assert LiveOwns(mem, fl, live, owner, owner[u]); }
    }
    assert owner.Keys == free + used && free !! used;
  }
}
