/** The page allocator (kernel/kalloc.c): a list of free pages linked through the pages themselves. */
module Kalloc {
  const PGSIZE: nat := 4096

  /** The page after the i'th of the list, 0 after the last. */
  function After(list: seq<nat>, i: nat): nat { if i + 1 < |list| then list[i + 1] else 0 }

  predicate LinkAt(next: map<nat, nat>, list: seq<nat>, i: nat)
    requires i < |list|
  {
    list[i] != 0 && list[i] in next && next[list[i]] == After(list, i)
  }

  /** next links the pages of list in order, from head, and ends in 0. */
  ghost predicate Chain(head: nat, next: map<nat, nat>, list: seq<nat>) {
    && head == (if list == [] then 0 else list[0])
    && (forall i: nat :: i < |list| ==> LinkAt(next, list, i))
    && (forall i, j :: 0 <= i < j < |list| ==> list[i] != list[j])
  }

  lemma ChainPush(head: nat, next: map<nat, nat>, list: seq<nat>, r: nat)
    requires Chain(head, next, list) && r != 0 && r !in list
    ensures Chain(r, next[r := head], [r] + list)
  {
    var l, n := [r] + list, next[r := head];
    forall i: nat | i < |l| ensures LinkAt(n, l, i) {
      if i > 0 { assert LinkAt(next, list, i - 1) && list[i - 1] in list; }
    }
  }

  lemma ChainPop(head: nat, next: map<nat, nat>, list: seq<nat>)
    requires Chain(head, next, list) && list != []
    ensures head in next && Chain(next[head], next, list[1..]) && head !in list[1..]
  {
    assert LinkAt(next, list, 0);
    forall i: nat | i < |list[1..]| ensures LinkAt(next, list[1..], i) { assert LinkAt(next, list, i + 1); }
  }

  class Kmem {
    const lo: nat  // end, the first address after the kernel, rounded up
    const hi: nat  // PHYSTOP
    var freelist: nat
    var next: map<nat, nat>
    ghost var list: seq<nat>

    ghost predicate Valid()
      reads this
    {
      && Chain(freelist, next, list) && 0 < lo
      && forall i :: 0 <= i < |list| ==> lo <= list[i] < hi && list[i] % PGSIZE == 0
    }

    constructor (lo: nat, hi: nat)
      requires 0 < lo
      ensures Valid() && list == [] && this.lo == lo && this.hi == hi
    {
      this.lo, this.hi, freelist, next, list := lo, hi, 0, map[], [];
    }

    /** kfree: the page goes to the front of the list; an address that is not a page of the pool is a panic. A page
        that is free already must not be freed again. */
    method Kfree(pa: nat) returns (panic: bool)
      requires Valid() && pa !in list
      modifies this
      ensures Valid() && (panic <==> pa % PGSIZE != 0 || pa < lo || pa >= hi)
      ensures list == if panic then old(list) else [pa] + old(list)
    {
      if pa % PGSIZE != 0 || pa < lo || pa >= hi { return true; }
      ChainPush(freelist, next, list, pa);
      next := next[pa := freelist];
      freelist := pa;
      list := [pa] + list;
      panic := false;
    }

    /** kalloc: the first page of the list, or 0 exactly when there is none. */
    method Alloc() returns (pa: nat)
      requires Valid()
      modifies this
      ensures Valid() && (pa == 0 <==> old(list) == [])
      ensures pa != 0 ==> old(list) == [pa] + list && pa !in list && lo <= pa < hi && pa % PGSIZE == 0
      ensures pa == 0 ==> list == old(list)
    {
      pa := freelist;
      if pa != 0 {
        ChainPop(freelist, next, list);
        freelist := next[pa];
        list := list[1..];
      }
    }

    /** kfreepagecount: the loop along the list. */
    method FreePageCount() returns (count: nat)
      requires Valid()
      ensures count == |list|
    {
      count := 0;
      var r := freelist;
      while r != 0
        invariant count <= |list| && r == if count < |list| then list[count] else 0
        decreases |list| - count
      {
        assert LinkAt(next, list, count);
        count := count + 1;
        r := next[r];
      }
    }
  }
}
