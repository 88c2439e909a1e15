/** The physical page allocator of kernel/kalloc.c: a free list of page numbers. */
module Kalloc {
  import opened Options
  import opened Collections
  import opened Params

  /** The bytes of a page. */
  type Bytes = b: seq<int> | |b| == PGSIZE witness seq(PGSIZE, _ => 0)

  function Filled(v: int): Bytes { seq(PGSIZE, _ => v) }

  ghost function Pool(s: seq<nat>): (r: set<nat>) { set p | p in s }

  lemma PoolPush(s: seq<nat>, p: nat)
    ensures Pool([p] + s) == Pool(s) + {p}
    ensures Distinct(s) && p !in s ==> Distinct([p] + s)
  {
  }

  lemma PoolPop(s: seq<nat>)
    requires |s| > 0 && Distinct(s)
    ensures Pool(s[1..]) == Pool(s) - {s[0]} && Distinct(s[1..]) && s[0] !in s[1..]
  {
    assert s == [s[0]] + s[1..];
  }

  lemma PoolSize(s: seq<nat>)
    requires Distinct(s)
    ensures |Pool(s)| == |s|
  {
    assert Pool(s) == Elements(s);
    ElementCount(s);
  }

  /** No page is free twice, and free pages are RAM. */
  ghost predicate KmemOk(fl: seq<nat>, page: map<nat, Bytes>, lo: nat, hi: nat) {
    && Distinct(fl) && (forall p | p in fl :: lo <= p < hi)
    && (forall p: nat | lo <= p < hi :: p in page)
  }

  class Kmem {
    const lo: nat                    // the first whole page after the kernel image
    const hi: nat                    // PHYSTOP / PGSIZE
    var freelist: seq<nat>
    var page: map<nat, Bytes>        // contents of every page of RAM

    ghost predicate Valid()
      reads this
    {
      KmemOk(freelist, page, lo, hi)
    }

    /** kinit: frees every whole page between the end of the kernel and PHYSTOP, once each. */
    constructor (end: nat, physpages: nat, ram: map<nat, Bytes>)
      requires forall p: nat | p < physpages :: p in ram
      ensures Valid() && hi == physpages && lo == (end + PGSIZE - 1) / PGSIZE
      ensures Pool(freelist) == set p | p in ram && lo <= p < hi
    {
      lo, hi := (end + PGSIZE - 1) / PGSIZE, physpages;
      freelist, page := [], ram;
      new;
      var p := lo;
      while p < hi
        invariant lo <= p && (lo <= hi ==> p <= hi) && Valid() && page.Keys == ram.Keys
        invariant Pool(freelist) == set q | q in ram && lo <= q < p
      {
        assert p !in freelist by { assert p !in Pool(freelist); }
        Kfree(p);
        p := p + 1;
      }
    }

    /** kfree of a page that is in range and not free already. */
    method Kfree(p: nat)
      requires Valid() && lo <= p < hi && p !in freelist
      modifies this
      ensures Valid() && freelist == [p] + old(freelist) && Pool(freelist) == Pool(old(freelist)) + {p}
      ensures page == old(page)[p := Filled(1)]
    {
      PoolPush(freelist, p);
      page := page[p := Filled(1)];
      freelist := [p] + freelist;
    }

    /** kalloc: the page it returns leaves the list; None exactly when the list is empty. */
    method Kalloc() returns (r: Option<nat>)
      requires Valid()
      modifies this
      ensures Valid()
      ensures r.None? <==> old(freelist) == []
      ensures r.None? ==> freelist == old(freelist) && page == old(page)
      ensures r.Some? ==> && r.value == old(freelist)[0] && freelist == old(freelist)[1..]
                          && lo <= r.value < hi && r.value !in freelist
                          && Pool(freelist) == Pool(old(freelist)) - {r.value}
                          && page == old(page)[r.value := Filled(5)]
    {
      if freelist == [] { return None; }
      PoolPop(freelist);
      var p := freelist[0];
      assert p in freelist && forall q | q in freelist[1..] :: q in freelist;
      r := Some(p);
      freelist := freelist[1..];
      page := page[p := Filled(5)];
    }

    /** kfree_memory: the bytes on the free list, each free page counted once. */
    method KfreeMemory() returns (size: nat)
      requires Valid()
      ensures size == |Pool(freelist)| * PGSIZE
    {
      PoolSize(freelist);
      size := 0;
      var temp := freelist;
      while temp != []
        invariant |temp| <= |freelist| && size == (|freelist| - |temp|) * PGSIZE
        decreases |temp|
      {
        size := size + PGSIZE;
        temp := temp[1..];
      }
    }
  }
}
