/** User address spaces (kernel/vm.c): mappages, uvmunmap, uvmalloc, uvmdealloc, uvmfree and uvmcopy, over the
    page tables of PageTable. */
module UserVm {
  import opened Basics
  import opened PageTable

  datatype Outcome = Done | Failed | Panicked

  /** The large predicates below are folded; naming Key(0) in a proof opens them. */
  function Key(z: int): int { z }

  // ---------------------------------------------------------------- mappages

  ghost predicate PtesMapped(m: Mem, u: Mem, id: nat, a: nat, k: nat, p: nat, flags: nat) {
    forall s: nat, v: nat ::
      PteAt(u, s, v) == if s == id && a <= v < a + k then Pte(p + (v - a), flags) else PteAt(m, s, v)
  }

  ghost predicate OwnersMapped(g: Owners, h: Owners, id: nat, a: nat, k: nat, p: nat) {
    && h.pool == g.pool
    && (forall x: nat :: x in h.spare <==> x in g.spare && !(p <= x < p + k))
    && (forall x: nat :: x in g.own ==> x in h.own && h.own[x] == g.own[x])
    && (forall x: nat :: x in h.own && h.own[x].Leaf? && x !in g.own ==> p <= x < p + k)
    && (forall x: nat :: x in g.pool && p <= x < p + k ==> x in h.own && h.own[x] == Leaf(id, a + (x - p)))
  }

  ghost predicate BytesKept(m: Mem, g: Owners, u: Mem) {
    forall x: nat :: x in m.data && (x in g.own || x in g.spare) ==> x in u.data && u.data[x] == m.data[x]
  }

  /** Pages a, ..., a + k - 1 of space id now map to p, ..., p + k - 1, and no other translation, owned page or
      byte has changed. */
  ghost predicate MappedBody(m: Mem, g: Owners, u: Mem, h: Owners, id: nat, a: nat, k: nat, p: nat, flags: nat) {
    VmOk(u, h) && u.roots == m.roots && PtesMapped(m, u, id, a, k, p, flags) && OwnersMapped(g, h, id, a, k, p) &&
      BytesKept(m, g, u)
  }

  /** The same, kept folded until the key is named. */
  ghost predicate Mapped(m: Mem, g: Owners, u: Mem, h: Owners, id: nat, a: nat, k: nat, p: nat, flags: nat) {
    forall z: int {:trigger Key(z)} :: z == 0 ==> MappedBody(m, g, u, h, id, a, k, p, flags)
  }

  /** Pages that can be mapped: spare ones, or ones outside the pool. */
  ghost predicate Mappable(g: Owners, p: nat, n: nat) { 0 < p && forall x: nat :: p <= x < p + n && x in g.pool ==>
    x in g.spare }

  lemma LeafLinked(m: Mem, g: Owners, id: nat, v: nat, p: nat, flags: nat)
    requires VmOk(m, g) && LowTable(m, id, I2(v), I1(v)) != 0 && !IsValid(PteAt(m, id, v))
    requires Mappable(g, p, 1) && flags < 1024 && flags % 2 == 1 && flags != PTE_V
    ensures HasSlot(m, Leaf(id, v))
    ensures Mapped(m, g, Set(m, Leaf(id, v), Pte(p, flags)), Linked(g, Leaf(id, v), p), id, v, 1, p, flags)
  {
    var r := Leaf(id, v);
    TablesOwned(m, g, r);
    PteRoundTrip(p, flags);
    LinkKeeps(m, g, r, Pte(p, flags));
    forall s: nat, w: nat ensures PteAt(Set(m, r, Pte(p, flags)), s, w) == if s == id &&
      w == v then Pte(p, flags) else PteAt(m, s, w) {
      PteAfter(m, g, r, Pte(p, flags), s, w);
    }
    assert PageOk(m, g, p);
    assert MappedBody(m, g, Set(m, r, Pte(p, flags)), Linked(g, r, p), id, v, 1, p, flags);
  }

  lemma SpareInPool(m: Mem, g: Owners, x: nat)
    requires VmOk(m, g) && x in g.spare
    ensures x in g.pool
  {
    assert PageOk(m, g, x);
  }

  lemma PtesMore(m: Mem, u: Mem, w: Mem, id: nat, a: nat, n: nat, p: nat, flags: nat)
    requires PtesMapped(m, u, id, a, n, p, flags) && PtesMapped(u, w, id, a + n, 1, p + n, flags)
    ensures PtesMapped(m, w, id, a, n + 1, p, flags)
  {
    forall s: nat, v: nat
      ensures PteAt(w, s, v) == if s == id && a <= v < a + (n + 1) then Pte(p + (v - a), flags) else PteAt(m, s, v) {
      assert s == id && v == a + n ==> p + n + (v - (a + n)) == p + (v - a);
    }
  }

  lemma OwnersMore(g: Owners, h: Owners, k: Owners, id: nat, a: nat, n: nat, p: nat)
    requires OwnersMapped(g, h, id, a, n, p) && OwnersMapped(h, k, id, a + n, 1, p + n)
    ensures OwnersMapped(g, k, id, a, n + 1, p)
  {
  }

  lemma BytesMore(m: Mem, g: Owners, u: Mem, h: Owners, w: Mem, id: nat, a: nat, n: nat, p: nat)
    requires VmOk(m, g) && OwnersMapped(g, h, id, a, n, p) && BytesKept(m, g, u) && BytesKept(u, h, w)
    ensures BytesKept(m, g, w)
  {
    forall x: nat | x in g.spare ensures x in g.pool { SpareInPool(m, g, x); }
  }

  lemma MappedMore(m: Mem, g: Owners, u: Mem, h: Owners, w: Mem, k: Owners, id: nat, a: nat, n: nat, p: nat, flags: nat)
    requires VmOk(m, g) && Mapped(m, g, u, h, id, a, n, p, flags) && Mapped(u, h, w, k, id, a + n, 1, p + n, flags)
    ensures Mapped(m, g, w, k, id, a, n + 1, p, flags)
  {
    assert Key(0) == 0;
    PtesMore(m, u, w, id, a, n, p, flags);
    OwnersMore(g, h, k, id, a, n, p);
    BytesMore(m, g, u, h, w, id, a, n, p);
    assert MappedBody(m, g, w, k, id, a, n + 1, p, flags);
  }

  lemma GrownMapped(m: Mem, g: Owners, u: Mem, h: Owners, w: Mem, k: Owners, id: nat, v: nat, p: nat, flags: nat)
    requires OnlyTables(m, g, u, h) && Mapped(u, h, w, k, id, v, 1, p, flags)
    ensures Mapped(m, g, w, k, id, v, 1, p, flags)
  {
    assert Key(0) == 0;
  }

  /** One turn of the loop in mappages. */
  method MapPage(m0: Mem, ghost g0: Owners, id: nat, a: nat, p: nat, perm: nat)
    returns (m: Mem, ghost g: Owners, r: Outcome)
    requires VmOk(m0, g0) && id in m0.roots && Mappable(g0, p, 1) && 1 < perm < 1024
    ensures r.Panicked? <==> a * PGSIZE >= MAXVA || (IsValid(PteAt(m0, id, a)) && a * PGSIZE < MAXVA)
    ensures r.Done? ==> Mapped(m0, g0, m, g, id, a, 1, p, OrValid(perm))
    ensures !r.Done? ==> OnlyTables(m0, g0, m, g)
    ensures r.Failed? ==> |m.free| == 0
  {
    var w;
    m, g, w := Walk(m0, g0, id, a * PGSIZE, true);
    match w
    case WalkPanic => r := Panicked;
    case NoTable => r := Failed;
    case At(t) =>
      var q := Leaf(id, a);
      TablesOwned(m, g, q);
      if IsValid(m.tables[t][I0(a)]) { return m, g, Panicked; }
      ghost var u, h := m, g;
      LeafLinked(m, g, id, a, p, OrValid(perm));
      m := m.(tables := m.tables[t := m.tables[t][I0(a) := Pte(p, OrValid(perm))]]);
      g := Linked(g, q, p);
      GrownMapped(m0, g0, u, h, m, g, id, a, p, OrValid(perm));
      r := Done;
  }

  lemma NextPage(m: Mem, g: Owners, u: Mem, h: Owners, id: nat, a: nat, k: nat, p: nat, flags: nat, n: nat)
    requires Mapped(m, g, u, h, id, a, k, p, flags) && Mappable(g, p, n) && k < n
    ensures VmOk(u, h) && u.roots == m.roots && Mappable(h, p + k, 1) && PteAt(u, id, a + k) == PteAt(m, id, a + k)
  {
    assert Key(0) == 0;
  }

  /** One turn of the loop in mappages, as it stands after k pages. */
  method MapNext(ghost m0: Mem, ghost g0: Owners, m1: Mem, ghost g1: Owners, id: nat, first: nat, k: nat, p: nat,
    perm: nat, ghost n: nat)
    returns (m: Mem, ghost g: Owners, r: Outcome)
    requires VmOk(m0, g0) && id in m0.roots && 1 < perm < 1024 && k < n && Mappable(g0, p, n)
    requires Mapped(m0, g0, m1, g1, id, first, k, p, OrValid(perm))
    ensures Mapped(m0, g0, m, g, id, first, if r.Done? then k + 1 else k, p, OrValid(perm))
    ensures r.Failed? ==> |m.free| == 0
    ensures r.Panicked? ==> (first + k) * PGSIZE >= MAXVA || IsValid(PteAt(m0, id, first + k))
  {
    NextPage(m0, g0, m1, g1, id, first, k, p, OrValid(perm), n);
    m, g, r := MapPage(m1, g1, id, first + k, p + k, perm);
    if r.Done? {
      MappedMore(m0, g0, m1, g1, m, g, id, first, k, p, OrValid(perm));
    } else {
      MappedGrown(m0, g0, m1, g1, m, g, id, first, k, p, OrValid(perm));
    }
  }

  /** The loop of mappages, over pages first to last. */
  method MapRange(m0: Mem, ghost g0: Owners, id: nat, first: nat, last: nat, p: nat, perm: nat)
    returns (m: Mem, ghost g: Owners, r: Outcome, k: nat)
    requires VmOk(m0, g0) && id in m0.roots && 1 < perm < 1024 && first <= last && Mappable(g0, p, last - first + 1)
    ensures Mapped(m0, g0, m, g, id, first, k, p, OrValid(perm))
    ensures if r.Done? then first + k == last + 1 else first + k <= last
    ensures r.Failed? ==> |m.free| == 0
    ensures r.Panicked? ==> (first + k) * PGSIZE >= MAXVA || IsValid(PteAt(m0, id, first + k))
  {
    m, g, k := m0, g0, 0;
    MappedNone(m, g, id, first, p, OrValid(perm));
    while true
      invariant first + k <= last && Mapped(m0, g0, m, g, id, first, k, p, OrValid(perm))
      decreases last - k
    {
      m, g, r := MapNext(m0, g0, m, g, id, first, k, p, perm, last - first + 1);
      if r != Done { return; }
      k := k + 1;
      if first + k - 1 == last { return; }
    }
  }

  /** mappages: the pages that cover [va, va + size) map to consecutive pages from p on. It fails when no page is
      left for a table, with the k pages before the failing one mapped; it panics on an empty range, on an address
      past MAXVA and on a page that is mapped already. */
  method MapPages(m0: Mem, ghost g0: Owners, id: nat, va: nat, size: nat, p: nat, perm: nat)
    returns (m: Mem, ghost g: Owners, r: Outcome, ghost k: nat)
    requires VmOk(m0, g0) && id in m0.roots && 1 < perm < 1024
    requires size > 0 ==> Mappable(g0, p, (va + size - 1) / PGSIZE - va / PGSIZE + 1)
    ensures Mapped(m0, g0, m, g, id, va / PGSIZE, k, p, OrValid(perm)) && (size == 0 ==> r == Panicked && m == m0)
    ensures size > 0 && r.Done? ==> va / PGSIZE + k == (va + size - 1) / PGSIZE + 1
    ensures size > 0 && !r.Done? ==> va / PGSIZE + k <= (va + size - 1) / PGSIZE
    ensures r.Failed? ==> |m.free| == 0
    ensures size > 0 && r.Panicked? ==> (va / PGSIZE + k) * PGSIZE >= MAXVA || IsValid(PteAt(m0, id, va / PGSIZE + k))
  {
    if size == 0 {
      MappedNone(m0, g0, id, va / PGSIZE, p, OrValid(perm));
      return m0, g0, Panicked, 0;
    }
    m, g, r, k := MapRange(m0, g0, id, va / PGSIZE, (va + size - 1) / PGSIZE, p, perm);
  }

  lemma MappedNone(m: Mem, g: Owners, id: nat, a: nat, p: nat, flags: nat)
    requires VmOk(m, g)
    ensures Mapped(m, g, m, g, id, a, 0, p, flags)
  {
    assert MappedBody(m, g, m, g, id, a, 0, p, flags);
  }

  lemma MappedGrown(m: Mem, g: Owners, u: Mem, h: Owners, w: Mem, k: Owners, id: nat, a: nat, n: nat, p: nat,
    flags: nat)
    requires VmOk(m, g) && Mapped(m, g, u, h, id, a, n, p, flags) && OnlyTables(u, h, w, k)
    ensures Mapped(m, g, w, k, id, a, n, p, flags)
  {
    assert Key(0) == 0;
    forall x: nat | x in g.spare ensures x in g.pool { SpareInPool(m, g, x); }
  }

  // ---------------------------------------------------------------- uvmunmap

  predicate LeafIn(r: Ref, id: nat, a: nat, k: nat) { r.Leaf? && r.id == id && a <= r.v < a + k }

  /** The translations of pages a, ..., a + k - 1 of space id are gone, no other has changed, and their pages of
      the pool are on the free list, or spare when they were not to be freed. */
  ghost predicate UnmappedBody(m: Mem, g: Owners, u: Mem, h: Owners, id: nat, a: nat, k: nat, free: bool) {
    && VmOk(u, h) && u.roots == m.roots && h.pool == g.pool
    && (forall s: nat, v: nat :: PteAt(u, s, v) == if s == id && a <= v < a + k then 0 else PteAt(m, s, v))
    && (forall x: nat :: x in h.own <==> x in g.own && !LeafIn(g.own[x], id, a, k))
    && (forall x: nat :: x in h.own ==> h.own[x] == g.own[x] && (x in m.data ==> x in u.data && u.data[x] == m.data[x]))
    && (forall x: nat :: x in h.spare <==> x in g.spare || (!free && x in g.own && LeafIn(g.own[x], id, a, k)))
    && (forall x: nat :: x in u.free <==> x in m.free || (free && x in g.own && LeafIn(g.own[x], id, a, k)))
    && |u.free| == |m.free| + (if free then k else 0)
    && (forall x: nat :: x in g.spare && x in m.data ==> x in u.data && u.data[x] == m.data[x])
  }

  /** The same, kept folded until the key is named. */
  ghost predicate Unmapped(m: Mem, g: Owners, u: Mem, h: Owners, id: nat, a: nat, k: nat, free: bool) {
    forall z: int {:trigger Key(z)} :: z == 0 ==> UnmappedBody(m, g, u, h, id, a, k, free)
  }

  lemma LeafCleared(m: Mem, g: Owners, id: nat, v: nat)
    requires VmOk(m, g) && IsValid(PteAt(m, id, v))
    ensures HasSlot(m, Leaf(id, v))
    ensures Unmapped(m, g, Set(m, Leaf(id, v), 0), Unlinked(g, PageOf(PteAt(m, id, v))), id, v, 1, false)
  {
    var r, p := Leaf(id, v), PageOf(PteAt(m, id, v));
    TablesOwned(m, g, r);
    ClearKeeps(m, g, r);
    forall s: nat, w: nat ensures PteAt(Set(m, r, 0), s, w) == if s == id && w == v then 0 else PteAt(m, s, w) {
      PteAfter(m, g, r, 0, s, w);
    }
    assert RefOk(m, g, r) && PageOk(m, g, p);
    forall x: nat | x in g.own && g.own[x] == r ensures x == p { assert PageOk(m, g, x); }
    assert UnmappedBody(m, g, Set(m, r, 0), Unlinked(g, p), id, v, 1, false);
  }

  lemma LeafFreed(m: Mem, g: Owners, u: Mem, h: Owners, id: nat, v: nat, p: nat)
    requires VmOk(m, g) && Unmapped(m, g, u, h, id, v, 1, false) && p in g.own && g.own[p] == Leaf(id, v)
    ensures Unmapped(m, g, Given(u, p), h.(spare := h.spare - {p}), id, v, 1, true)
  {
    assert Key(0) == 0;
    GiveKeeps(u, h, p);
    RefsKept(u, h, Given(u, p), h.(spare := h.spare - {p}));
    assert PageOk(m, g, p);
    forall x: nat | x in g.own && LeafIn(g.own[x], id, v, 1)
      ensures x == p { assert PageOk(m, g, x) && PageOk(m, g, p); }
    forall x: nat ensures x in Given(u, p).free <==> x in u.free || x == p {}
  }

  lemma UnmappedMore(m: Mem, g: Owners, u: Mem, h: Owners, w: Mem, k: Owners, id: nat, a: nat, n: nat, free: bool)
    requires Unmapped(m, g, u, h, id, a, n, free) && Unmapped(u, h, w, k, id, a + n, 1, free)
    ensures Unmapped(m, g, w, k, id, a, n + 1, free)
  {
    assert Key(0) == 0;
  }

  lemma UnmappedNone(m: Mem, g: Owners, id: nat, a: nat, free: bool)
    requires VmOk(m, g)
    ensures Unmapped(m, g, m, g, id, a, 0, free)
  {
    assert UnmappedBody(m, g, m, g, id, a, 0, free);
  }

  /** One turn of the loop in uvmunmap. Freeing panics on a page that is not of the pool. */
  method UnmapPage(m0: Mem, ghost g0: Owners, id: nat, a: nat, free: bool)
    returns (m: Mem, ghost g: Owners, panic: bool)
    requires VmOk(m0, g0) && id in m0.roots
    ensures panic <==>
      a * PGSIZE >= MAXVA || !IsValid(PteAt(m0, id, a)) || (free && PageOf(PteAt(m0, id, a)) !in g0.pool)
    ensures !panic ==> Unmapped(m0, g0, m, g, id, a, 1, free)
  {
    var w;
    m, g, w := Walk(m0, g0, id, a * PGSIZE, false);
    if w.WalkPanic? || w.NoTable? { return m, g, true; }
    var q, t := Leaf(id, a), w.table;
    TablesOwned(m, g, q);
    var pte := m.tables[t][I0(a)];
    assert pte == PteAt(m0, id, a) && FlagsOk(m, q) && RefOk(m, g, q);
    if !IsValid(pte) { return m, g, true; }
    if Flags(pte) == PTE_V { return m, g, true; }
    var p := PageOf(pte);
    assert PageOk(m, g, p);
    if free && !(m.lo <= p < m.hi) { return m, g, true; }
    LeafCleared(m0, g0, id, a);
    m := m.(tables := m.tables[t := m.tables[t][I0(a) := 0]]);
    g := Unlinked(g, p);
    if free {
      LeafFreed(m0, g0, m, g, id, a, p);
      m, g := Given(m, p), g.(spare := g.spare - {p});
    }
    panic := false;
  }

  /** Page v of space id can be unmapped, and freed if asked. */
  predicate Removable(m: Mem, pool: set<nat>, id: nat, v: nat, free: bool) {
    v * PGSIZE < MAXVA && IsValid(PteAt(m, id, v)) && (free ==> PageOf(PteAt(m, id, v)) in pool)
  }

  /** uvmunmap: exactly the named translations go; it panics exactly when va is not aligned or one of the pages is
      not mapped (or is to be freed and is not of the pool). */
  method Uvmunmap(m0: Mem, ghost g0: Owners, id: nat, va: nat, npages: nat, free: bool)
    returns (m: Mem, ghost g: Owners, panic: bool)
    requires VmOk(m0, g0) && id in m0.roots
    ensures panic <==> va % PGSIZE != 0 || exists v: nat ::
      va / PGSIZE <= v < va / PGSIZE + npages && !Removable(m0, g0.pool, id, v, free)
    ensures !panic ==> Unmapped(m0, g0, m, g, id, va / PGSIZE, npages, free)
  {
    m, g := m0, g0;
    if va % PGSIZE != 0 { return m, g, true; }
    m, g, panic := UnmapRange(m0, g0, id, va / PGSIZE, npages, free);
  }

  lemma UnmappedAt(m: Mem, g: Owners, u: Mem, h: Owners, id: nat, a: nat, k: nat, free: bool)
    requires Unmapped(m, g, u, h, id, a, k, free)
    ensures VmOk(u, h) && u.roots == m.roots && h.pool == g.pool && PteAt(u, id, a + k) == PteAt(m, id, a + k)
  {
    assert Key(0) == 0;
  }

  lemma UnmappedCount(m: Mem, g: Owners, u: Mem, h: Owners, id: nat, a: nat, k: nat, free: bool)
    requires Unmapped(m, g, u, h, id, a, k, free)
    ensures |u.free| == |m.free| + if free then k else 0
  {
    assert Key(0) == 0;
  }

  method UnmapNext(ghost m0: Mem, ghost g0: Owners, m1: Mem, ghost g1: Owners, id: nat, first: nat, k: nat, free: bool)
    returns (m: Mem, ghost g: Owners, panic: bool)
    requires VmOk(m0, g0) && id in m0.roots && Unmapped(m0, g0, m1, g1, id, first, k, free)
    ensures panic <==> !Removable(m0, g0.pool, id, first + k, free)
    ensures !panic ==> Unmapped(m0, g0, m, g, id, first, k + 1, free)
  {
    UnmappedAt(m0, g0, m1, g1, id, first, k, free);
    m, g, panic := UnmapPage(m1, g1, id, first + k, free);
    if !panic { UnmappedMore(m0, g0, m1, g1, m, g, id, first, k, free); }
  }

  method UnmapRange(m0: Mem, ghost g0: Owners, id: nat, first: nat, n: nat, free: bool)
    returns (m: Mem, ghost g: Owners, panic: bool)
    requires VmOk(m0, g0) && id in m0.roots
    ensures panic <==> exists v: nat :: first <= v < first + n && !Removable(m0, g0.pool, id, v, free)
    ensures !panic ==> Unmapped(m0, g0, m, g, id, first, n, free)
  {
    m, g, panic := m0, g0, false;
    UnmappedNone(m, g, id, first, free);
    var k: nat := 0;
    while k < n
      invariant k <= n && Unmapped(m0, g0, m, g, id, first, k, free)
      invariant forall v: nat :: first <= v < first + k ==> Removable(m0, g0.pool, id, v, free)
    {
      m, g, panic := UnmapNext(m0, g0, m, g, id, first, k, free);
      if panic { return; }
      k := k + 1;
    }
  }

  // ---------------------------------------------------------------- adding pages

  /** What a new page holds and how it is mapped. */
  datatype Fill = Fill(flags: nat, bytes: Page)

  /** Page v of space id is mapped as want says, to a page of the pool that nothing had owned. */
  ghost predicate FilledAt(g: Owners, u: Mem, h: Owners, id: nat, a: nat, want: seq<Fill>, v: nat)
    requires a <= v < a + |want|
  {
    var p, f := PageOf(PteAt(u, id, v)), want[v - a];
    && v * PGSIZE < MAXVA && PteAt(u, id, v) == Pte(p, f.flags) && IsValid(PteAt(u, id, v))
    && p in h.own && h.own[p] == Leaf(id, v) && p !in g.own && p !in g.spare && p in u.data && u.data[p] == f.bytes
  }

  /** Space id has got the pages want from page a on, in fresh frames; all other translations, owned pages and
      bytes are as before, and besides only table pages were taken. */
  ghost predicate ExtendedBody(m: Mem, g: Owners, u: Mem, h: Owners, id: nat, a: nat, want: seq<Fill>) {
    && VmOk(u, h) && u.roots == m.roots && h.pool == g.pool && h.spare == g.spare
    && (forall s: nat, v: nat :: !(s == id && a <= v < a + |want|) ==> PteAt(u, s, v) == PteAt(m, s, v))
    && (forall v: nat :: a <= v < a + |want| ==> FilledAt(g, u, h, id, a, want, v))
    && (forall x: nat :: x in g.own ==> x in h.own && h.own[x] == g.own[x])
    && (forall x: nat :: x in h.own && h.own[x].Leaf? && x !in g.own ==> LeafIn(h.own[x], id, a, |want|))
    && (forall x: nat :: x in m.data && (x in g.own || x in g.spare) ==> x in u.data && u.data[x] == m.data[x])
  }

  /** The same, kept folded until the key is named. */
  ghost predicate Extended(m: Mem, g: Owners, u: Mem, h: Owners, id: nat, a: nat, want: seq<Fill>) {
    forall z: int {:trigger Key(z)} :: z == 0 ==> ExtendedBody(m, g, u, h, id, a, want)
  }

  function Written(m: Mem, p: nat, bytes: Page): Mem { m.(data := m.data[p := bytes]) }

  lemma WriteKeeps(m: Mem, g: Owners, p: nat, bytes: Page)
    requires VmOk(m, g)
    ensures VmOk(Written(m, p, bytes), g) && forall s: nat, v: nat ::
      PteAt(Written(m, p, bytes), s, v) == PteAt(m, s, v)
  {
    RefsKept(m, g, Written(m, p, bytes), g);
    forall q: nat ensures PageOk(Written(m, p, bytes), g, q) { assert PageOk(m, g, q); }
  }

  /** kalloc followed by a write to the whole page. */
  function Fresh(m: Mem, bytes: Page): Mem
    requires |m.free| > 0
  {
    Written(Taken(m), m.free[0], bytes)
  }

  lemma FreshKeeps(m: Mem, g: Owners, bytes: Page)
    requires VmOk(m, g) && |m.free| > 0
    ensures VmOk(Fresh(m, bytes), g.(spare := g.spare + {m.free[0]}))
    ensures m.free[0] in g.pool && m.free[0] !in g.own && m.free[0] !in g.spare && 0 < m.free[0]
    ensures forall s: nat, v: nat :: PteAt(Fresh(m, bytes), s, v) == PteAt(m, s, v)
  {
    TakeKeeps(m, g);
    WriteKeeps(Taken(m), g.(spare := g.spare + {m.free[0]}), m.free[0], bytes);
    assert m.free[0] in m.free && PageOk(m, g, m.free[0]);
    RefsKept(m, g, Taken(m), g);
  }

  lemma ExtendedNone(m: Mem, g: Owners, id: nat, a: nat)
    requires VmOk(m, g)
    ensures Extended(m, g, m, g, id, a, [])
  {
    assert ExtendedBody(m, g, m, g, id, a, []);
  }

  /** Adding only table pages keeps an extension. */
  lemma ExtendedGrown(m: Mem, g: Owners, u: Mem, h: Owners, w: Mem, k: Owners, id: nat, a: nat, want: seq<Fill>)
    requires Extended(m, g, u, h, id, a, want) && OnlyTables(u, h, w, k)
    ensures Extended(m, g, w, k, id, a, want)
  {
    assert Key(0) == 0;
    forall v: nat | a <= v < a + |want| ensures FilledAt(g, w, k, id, a, want, v) {
      assert FilledAt(g, u, h, id, a, want, v);
    }
  }

  /** A page is taken and given back, with only table pages added meanwhile. */
  lemma TakenAndGiven(m: Mem, g: Owners, bytes: Page, w: Mem, k: Owners)
    requires VmOk(m, g) && |m.free| > 0
    requires OnlyTables(Fresh(m, bytes), g.(spare := g.spare + {m.free[0]}), w, k)
    ensures OnlyTables(m, g, Given(w, m.free[0]), k.(spare := k.spare - {m.free[0]}))
  {
    var p := m.free[0];
    FreshKeeps(m, g, bytes);
    GiveKeeps(w, k, p);
    RefsKept(w, k, Given(w, p), k.(spare := k.spare - {p}));
    assert g.spare + {p} - {p} == g.spare;
    forall s: nat, v: nat
      ensures PteAt(Given(w, p), s, v) == PteAt(m, s, v) { assert PteAt(w, s, v) == PteAt(m, s, v); }
  }

  /** The fresh page, mapped. */
  lemma FilledNew(u: Mem, h: Owners, g: Owners, id: nat, v: nat, f: Fill, w: Mem, k: Owners)
    requires VmOk(u, h) && |u.free| > 0 && v * PGSIZE < MAXVA && f.flags < 1024 && f.flags % 2 == 1
    requires MappedBody(Fresh(u, f.bytes), h.(spare := h.spare + {u.free[0]}), w, k, id, v, 1, u.free[0], f.flags)
    requires h.spare == g.spare && forall x: nat :: x in g.own ==> x in h.own
    ensures FilledAt(g, w, k, id, v, [f], v)
  {
    var p := u.free[0];
    FreshKeeps(u, h, f.bytes);
    PteRoundTrip(p, f.flags);
    assert PteAt(w, id, v) == Pte(p + (v - v), f.flags);
  }

  lemma FilledStays(g: Owners, u: Mem, h: Owners, id: nat, a: nat, want: seq<Fill>, f: Fill, v: nat, w: Mem, k: Owners)
    requires VmOk(u, h) && |u.free| > 0 && a <= v < a + |want| && FilledAt(g, u, h, id, a, want, v)
    requires MappedBody(Fresh(u, f.bytes), h.(spare := h.spare + {u.free[0]}), w, k, id, a + |want|, 1, u.free[0],
      f.flags)
    ensures FilledAt(g, w, k, id, a, want + [f], v)
  {
    FreshKeeps(u, h, f.bytes);
    assert PteAt(w, id, v) == PteAt(Fresh(u, f.bytes), id, v);
  }

  /** The extension has one page more. */
  lemma ExtendedMore(m: Mem, g: Owners, u: Mem, h: Owners, id: nat, a: nat, want: seq<Fill>, f: Fill, w: Mem, k: Owners)
    requires VmOk(m, g) && Extended(m, g, u, h, id, a, want) && |u.free| > 0 && (a + |want|) * PGSIZE < MAXVA
    requires f.flags < 1024 && f.flags % 2 == 1
    requires Mapped(Fresh(u, f.bytes), h.(spare := h.spare + {u.free[0]}), w, k, id, a + |want|, 1, u.free[0], f.flags)
    ensures Extended(m, g, w, k, id, a, want + [f])
  {
    assert Key(0) == 0;
    FreshKeeps(u, h, f.bytes);
    assert k.spare == g.spare;
    ExtendedFills(m, g, u, h, id, a, want, f, w, k);
    assert ExtendedBody(m, g, w, k, id, a, want + [f]);
  }

  lemma ExtendedFills(m: Mem, g: Owners, u: Mem, h: Owners, id: nat, a: nat, want: seq<Fill>, f: Fill, w: Mem,
    k: Owners)
    requires ExtendedBody(m, g, u, h, id, a, want) && |u.free| > 0 && (a + |want|) * PGSIZE < MAXVA
    requires f.flags < 1024 && f.flags % 2 == 1
    requires MappedBody(Fresh(u, f.bytes), h.(spare := h.spare + {u.free[0]}), w, k, id, a + |want|, 1, u.free[0],
                        f.flags)
    ensures forall v: nat :: a <= v < a + |want + [f]| ==> FilledAt(g, w, k, id, a, want + [f], v)
  {
    forall v: nat | a <= v < a + |want + [f]| ensures FilledAt(g, w, k, id, a, want + [f], v) {
      if v < a + |want| { FilledStays(g, u, h, id, a, want, f, v, w, k); } else { FilledNew(u, h, g, id, v, f, w, k); }
    }
  }

  /** Unmapping what was added leaves only the table pages. */
  lemma RolledBack(m: Mem, g: Owners, u: Mem, h: Owners, id: nat, a: nat, want: seq<Fill>, w: Mem, k: Owners)
    requires VmOk(m, g) && Extended(m, g, u, h, id, a, want) && Unmapped(u, h, w, k, id, a, |want|, true)
    requires forall v: nat :: a <= v < a + |want| ==> !IsValid(PteAt(m, id, v))
    ensures OnlyTables(m, g, w, k)
  {
    assert Key(0) == 0;
    forall s: nat, v: nat ensures PteAt(w, s, v) == PteAt(m, s, v) {
      assert FlagsOk(m, Leaf(s, v));
    }
    forall x: nat | x in g.own ensures !LeafIn(g.own[x], id, a, |want|) {
      assert PageOk(m, g, x);
      assert g.own[x].Leaf? ==> IsValid(PteAt(m, g.own[x].id, g.own[x].v));
    }
  }

  lemma ExtendedAt(m: Mem, g: Owners, u: Mem, h: Owners, id: nat, a: nat, want: seq<Fill>)
    requires Extended(m, g, u, h, id, a, want)
    ensures VmOk(u, h) && u.roots == m.roots && h.pool == g.pool && PteAt(u, id, a + |want|) == PteAt(m, id, a + |want|)
  {
    assert Key(0) == 0;
  }

  /** Every page of an extension can be unmapped and freed. */
  lemma ExtendedRemovable(m: Mem, g: Owners, u: Mem, h: Owners, id: nat, a: nat, want: seq<Fill>, v: nat)
    requires Extended(m, g, u, h, id, a, want) && a <= v < a + |want|
    ensures Removable(u, h.pool, id, v, true)
  {
    assert Key(0) == 0;
    assert FilledAt(g, u, h, id, a, want, v) && PageOk(u, h, PageOf(PteAt(u, id, v)));
  }

  /** A turn of the loops in uvmalloc and uvmcopy: a fresh page with these bytes is mapped, or memory runs out and
      at most table pages are added. */
  method AddPage(ghost m0: Mem, ghost g0: Owners, m1: Mem, ghost g1: Owners, id: nat, ghost a: nat,
    ghost want: seq<Fill>, v: nat, f: Fill)
    returns (m: Mem, ghost g: Owners, r: Outcome)
    requires VmOk(m0, g0) && id in m0.roots && Extended(m0, g0, m1, g1, id, a, want) && v == a + |want|
    requires 1 < f.flags < 1024 && f.flags % 2 == 1
    ensures Extended(m0, g0, m, g, id, a, if r.Done? then want + [f] else want)
    ensures r.Panicked? ==> v * PGSIZE >= MAXVA || IsValid(PteAt(m0, id, v))
    ensures r.Done? ==> v * PGSIZE < MAXVA && !IsValid(PteAt(m0, id, v))
    ensures r.Failed? ==> |m.free| <= 1
  {
    ExtendedAt(m0, g0, m1, g1, id, a, want);
    if |m1.free| == 0 { return m1, g1, Failed; }
    var p := m1.free[0];
    FreshKeeps(m1, g1, f.bytes);
    var m2 := Fresh(m1, f.bytes);
    ghost var g2 := g1.(spare := g1.spare + {p});
    assert PteAt(m2, id, v) == PteAt(m0, id, v);
    m, g, r := MapPage(m2, g2, id, v, p, f.flags);
    if r.Done? {
      ExtendedMore(m0, g0, m1, g1, id, a, want, f, m, g);
    } else {
      TakenAndGiven(m1, g1, f.bytes, m, g);
      m, g := Given(m, p), g.(spare := g.spare - {p});
      ExtendedGrown(m0, g0, m1, g1, m, g, id, a, want);
    }
  }

  // ---------------------------------------------------------------- uvmalloc and uvmdealloc

  /** Pages needed for sz bytes: PGROUNDUP(sz) / PGSIZE. */
  function Pages(sz: nat): nat { (sz + PGSIZE - 1) / PGSIZE }

  /** uvmdealloc: the pages between the new and the old size are unmapped and freed. */
  method Uvmdealloc(m0: Mem, ghost g0: Owners, id: nat, oldsz: nat, newsz: nat)
    returns (m: Mem, ghost g: Owners, ret: nat, panic: bool)
    requires VmOk(m0, g0) && id in m0.roots
    ensures newsz >= oldsz ==> m == m0 && g == g0 && ret == oldsz && !panic
    ensures newsz < oldsz ==> ret == newsz
    ensures panic <==> newsz < oldsz && exists v: nat ::
      Pages(newsz) <= v < Pages(oldsz) && !Removable(m0, g0.pool, id, v, true)
    ensures !panic && newsz < oldsz ==> Unmapped(m0, g0, m, g, id, Pages(newsz), Pages(oldsz) - Pages(newsz), true)
  {
    m, g, ret, panic := m0, g0, oldsz, false;
    if newsz >= oldsz { return; }
    ret := newsz;
    if Pages(newsz) < Pages(oldsz) {
      m, g, panic := UnmapRange(m0, g0, id, Pages(newsz), Pages(oldsz) - Pages(newsz), true);
    } else {
      UnmappedNone(m, g, id, Pages(newsz), true);
    }
  }

  function Zeros(): Page { seq(PGSIZE, _ => 0) }

  /** n zeroed pages, mapped readable, writable, executable and for the user. */
  function ZeroFills(n: nat): (r: seq<Fill>)
    ensures |r| == n && forall i :: 0 <= i < n ==> r[i] == Fill(31, Zeros())
  {
    seq(n, _ => Fill(31, Zeros()))
  }

  /** Undo an extension, as uvmalloc and uvmcopy do when memory runs out. */
  method UndoPages(ghost m0: Mem, ghost g0: Owners, m1: Mem, ghost g1: Owners, id: nat, a: nat, n: nat,
    ghost want: seq<Fill>)
    returns (m: Mem, ghost g: Owners)
    requires VmOk(m0, g0) && id in m0.roots && Extended(m0, g0, m1, g1, id, a, want) && n == |want|
    requires forall v: nat :: a <= v < a + |want| ==> !IsValid(PteAt(m0, id, v))
    ensures OnlyTables(m0, g0, m, g) && |m.free| == |m1.free| + n
  {
    ExtendedAt(m0, g0, m1, g1, id, a, want);
    forall v: nat | a <= v < a + n ensures Removable(m1, g1.pool, id, v, true) {
      ExtendedRemovable(m0, g0, m1, g1, id, a, want, v);
    }
    var panic;
    m, g, panic := UnmapRange(m1, g1, id, a, n, true);
    RolledBack(m0, g0, m1, g1, id, a, want, m, g);
    UnmappedCount(m1, g1, m, g, id, a, n, true);
  }

  /** uvmalloc: on success the space has zeroed pages up to the new size; when memory runs out every page it took
      is given back and every translation is as before. */
  method Uvmalloc(m0: Mem, ghost g0: Owners, id: nat, oldsz: nat, newsz: nat)
    returns (m: Mem, ghost g: Owners, ret: nat, r: Outcome)
    requires VmOk(m0, g0) && id in m0.roots
    ensures newsz < oldsz ==> m == m0 && ret == oldsz && r.Done?
    ensures newsz >= oldsz && r.Done? ==>
      ret == newsz && Extended(m0, g0, m, g, id, Pages(oldsz), ZeroFills(Pages(newsz) - Pages(oldsz)))
    ensures r.Failed? ==> ret == 0 && OnlyTables(m0, g0, m, g) && |m.free| <= Pages(newsz) - Pages(oldsz)
    ensures r.Panicked? ==>
      exists v: nat :: Pages(oldsz) <= v < Pages(newsz) && (v * PGSIZE >= MAXVA || IsValid(PteAt(m0, id, v)))
  {
    m, g, ret, r := m0, g0, oldsz, Done;
    if newsz < oldsz { return; }
    var first, a := Pages(oldsz), Pages(oldsz);
    ExtendedNone(m, g, id, first);
    while a * PGSIZE < newsz
      invariant first <= a <= Pages(newsz) && Extended(m0, g0, m, g, id, first, ZeroFills(a - first))
      invariant forall v: nat :: first <= v < a ==> !IsValid(PteAt(m0, id, v))
    {
      var o;
      m, g, o := AddPage(m0, g0, m, g, id, first, ZeroFills(a - first), a, Fill(31, Zeros()));
      if o.Panicked? { return m, g, 0, o; }
      if o.Failed? {
        m, g := UndoPages(m0, g0, m, g, id, first, a - first, ZeroFills(a - first));
        return m, g, 0, o;
      }
      assert ZeroFills(a - first) + [Fill(31, Zeros())] == ZeroFills(a + 1 - first);
      a := a + 1;
    }
    ret := newsz;
  }

  // ---------------------------------------------------------------- uvmcopy

  /** Pages below n of space id, with their flags and bytes. */
  ghost predicate Copyable(m: Mem, pool: set<nat>, id: nat, n: nat) {
    forall v: nat :: v < n && IsValid(PteAt(m, id, v)) ==> PageOf(PteAt(m, id, v)) in pool
  }

  function FillAt(m: Mem, id: nat, v: nat): Fill {
    var e := PteAt(m, id, v);
    Fill(Flags(e), if PageOf(e) in m.data then m.data[PageOf(e)] else Zeros())
  }

  function CopyFills(m: Mem, id: nat, n: nat): (r: seq<Fill>)
    ensures |r| == n && forall i :: 0 <= i < n ==> r[i] == FillAt(m, id, i)
  {
    seq(n, i requires 0 <= i => FillAt(m, id, i))
  }

  /** The page to be copied next is still as it was at the start. */
  lemma SourceKept(m0: Mem, g0: Owners, m: Mem, g: Owners, src: nat, dst: nat, n: nat, want: seq<Fill>, v: nat)
    requires VmOk(m0, g0) && src != dst && Copyable(m0, g0.pool, src, n) && v < n &&
      Extended(m0, g0, m, g, dst, 0, want)
    ensures VmOk(m, g) && m.roots == m0.roots && PteAt(m, src, v) == PteAt(m0, src, v)
    ensures IsValid(PteAt(m, src, v)) ==> FillAt(m, src, v) == FillAt(m0, src, v) && PageOf(PteAt(m, src, v)) in m.data
    ensures IsValid(PteAt(m, src, v)) ==> var f := FillAt(m, src, v).flags; 1 < f < 1024 && f % 2 == 1
  {
    assert Key(0) == 0;
    var p := PageOf(PteAt(m0, src, v));
    assert RefOk(m0, g0, Leaf(src, v)) && FlagsOk(m0, Leaf(src, v)) && PageOk(m0, g0, p);
    if IsValid(PteAt(m, src, v)) { assert p in g0.own && p in m0.data; }
    assert PteAt(m0, src, v) % 1024 % 2 == PteAt(m0, src, v) % 2;
  }

  /** uvmcopy from 0: the new space gets the same flags and bytes, in fresh frames of its own; when memory runs out
      the new space is as before and at most table pages were added. */
  method Uvmcopy(m0: Mem, ghost g0: Owners, src: nat, dst: nat, end: nat) returns (m: Mem, ghost g: Owners, r: Outcome)
    requires VmOk(m0, g0) && src in m0.roots && dst in m0.roots && src != dst && Copyable(m0, g0.pool, src, Pages(end))
    ensures r.Done? ==> Extended(m0, g0, m, g, dst, 0, CopyFills(m0, src, Pages(end)))
    ensures r.Failed? ==> OnlyTables(m0, g0, m, g) && |m.free| <= Pages(end)
    ensures r.Panicked? ==>
      exists v: nat ::
        v < Pages(end) && (v * PGSIZE >= MAXVA || !IsValid(PteAt(m0, src, v)) || IsValid(PteAt(m0, dst, v)))
  {
    m, g, r := m0, g0, Done;
    var v: nat := 0;
    ExtendedNone(m, g, dst, 0);
    while v * PGSIZE < end
      invariant v <= Pages(end) && r == Done && Extended(m0, g0, m, g, dst, 0, CopyFills(m0, src, v))
      invariant forall w: nat :: w < v ==> !IsValid(PteAt(m0, dst, w))
    {
      var o;
      m, g, o := CopyPage(m0, g0, m, g, src, dst, v, Pages(end));
      if o.Panicked? { return m, g, o; }
      if o.Failed? {
        m, g := UndoPages(m0, g0, m, g, dst, 0, v, CopyFills(m0, src, v));
        return m, g, o;
      }
      v := v + 1;
    }
  }

  /** One turn of the loop in uvmcopy. */
  method CopyPage(ghost m0: Mem, ghost g0: Owners, m1: Mem, ghost g1: Owners, src: nat, dst: nat, v: nat, ghost n: nat)
    returns (m: Mem, ghost g: Owners, r: Outcome)
    requires VmOk(m0, g0) && src in m0.roots && dst in m0.roots && src != dst && Copyable(m0, g0.pool, src, n) && v < n
    requires Extended(m0, g0, m1, g1, dst, 0, CopyFills(m0, src, v))
    ensures !r.Panicked? ==> Extended(m0, g0, m, g, dst, 0, CopyFills(m0, src, if r.Done? then v + 1 else v))
    ensures r.Panicked? ==> v * PGSIZE >= MAXVA || !IsValid(PteAt(m0, src, v)) || IsValid(PteAt(m0, dst, v))
    ensures r.Done? ==> !IsValid(PteAt(m0, dst, v))
    ensures r.Failed? ==> |m.free| <= 1
  {
    SourceKept(m0, g0, m1, g1, src, dst, n, CopyFills(m0, src, v), v);
    var w;
    m, g, w := Walk(m1, g1, src, v * PGSIZE, false);
    if w.WalkPanic? || w.NoTable? { return m, g, Panicked; }
    TablesOwned(m, g, Leaf(src, v));
    var pte := m.tables[w.table][I0(v)];
    assert pte == PteAt(m1, src, v);
    if !IsValid(pte) { return m, g, Panicked; }
    m, g, r := AddPage(m0, g0, m1, g1, dst, 0, CopyFills(m0, src, v), v, Fill(Flags(pte), m1.data[PageOf(pte)]));
    assert CopyFills(m0, src, v) + [FillAt(m0, src, v)] == CopyFills(m0, src, v + 1);
  }

  // ---------------------------------------------------------------- freewalk and uvmfree

  /** q lies below the table r. */
  predicate Below(q: Ref, r: Ref) {
    && q.id == r.id
    && match r
       case Root(_) => !q.Root?
       case Mid(_, i2) => (q.Low? && q.i2 == i2) || (q.Leaf? && I2(q.v) == i2)
       case Low(_, i2, i1) => q.Leaf? && I2(q.v) == i2 && I1(q.v) == i1
       case Leaf(_, _) => false
  }

  /** Through which entry of r the place q below it is reached. */
  function Branch(q: Ref, r: Ref): nat {
    match r
    case Root(_) => if q.Mid? || q.Low? then q.i2 else if q.Leaf? then I2(q.v) else 0
    case Mid(_, _) => if q.Low? then q.i1 else if q.Leaf? then I1(q.v) else 0
    case Low(_, _, _) => if q.Leaf? then I0(q.v) else 0
    case Leaf(_, _) => 0
  }

  /** The entry i of the table r. */
  function EntryRef(r: Ref, i: nat): Ref {
    match r
    case Root(id) => Mid(id, i)
    case Mid(id, i2) => Low(id, i2, i)
    case Low(id, i2, i1) => Leaf(id, i2 * 0x4_0000 + i1 * 512 + i)
    case Leaf(_, _) => r
  }

  predicate Gone(q: Ref, r: Ref, n: nat) { Below(q, r) && Branch(q, r) < n }

  ghost predicate EntriesGone(m: Mem, u: Mem, r: Ref, n: nat) {
    forall q: Ref :: !q.Root? ==> Entry(u, q) == if Gone(q, r, n) then 0 else Entry(m, q)
  }

  ghost predicate OwnersGone(m: Mem, g: Owners, u: Mem, h: Owners, r: Ref, n: nat) {
    && (forall x: nat :: x in h.own <==> x in g.own && !Gone(g.own[x], r, n))
    && (forall x: nat :: x in u.free <==> x in m.free || (x in g.own && Gone(g.own[x], r, n)))
  }

  ghost predicate OthersKept(m: Mem, g: Owners, u: Mem, h: Owners) {
    && u.roots == m.roots && h.pool == g.pool && h.spare == g.spare
    && (forall x: nat :: x in h.own ==> x in g.own && h.own[x] == g.own[x])
    && (forall x: nat :: x in m.data && (x in h.own || x in g.spare) ==> x in u.data && u.data[x] == m.data[x])
  }

  /** All that hung from the first n entries of the table r is freed; nothing else has changed. */
  ghost predicate EmptiedBody(m: Mem, g: Owners, u: Mem, h: Owners, r: Ref, n: nat) {
    VmOk(u, h) && EntriesGone(m, u, r, n) && OwnersGone(m, g, u, h, r, n) && OthersKept(m, g, u, h)
  }

  /** The same, kept folded until the key is named. */
  ghost predicate Emptied(m: Mem, g: Owners, u: Mem, h: Owners, r: Ref, n: nat) {
    forall z: int {:trigger Key(z)} :: z == 0 ==> EmptiedBody(m, g, u, h, r, n)
  }

  lemma EmptiedNone(m: Mem, g: Owners, r: Ref)
    requires VmOk(m, g)
    ensures Emptied(m, g, m, g, r, 0)
  {
    assert EmptiedBody(m, g, m, g, r, 0);
  }

  lemma LeafIndex(i2: nat, i1: nat, i0: nat)
    requires i1 < 512 && i0 < 512
    ensures var v := i2 * 0x4_0000 + i1 * 512 + i0; I2(v) == i2 && I1(v) == i1 && I0(v) == i0
  {
    var v := i2 * 0x4_0000 + i1 * 512 + i0;
    assert v / 512 == i2 * 512 + i1;
    assert v / 0x4_0000 == v / 512 / 512;
  }

  /** When all below the table r is gone its page is all zeros. */
  lemma EmptyIsBlank(m: Mem, g: Owners, u: Mem, h: Owners, r: Ref)
    requires Emptied(m, g, u, h, r, 512) && (r.Mid? || r.Low?) && Target(u, r) != 0
    ensures Blank(u, Target(u, r))
  {
    assert Key(0) == 0;
    var t := Target(u, r);
    if t in u.tables {
      assert RefOk(u, h, r) && (r.Low? ==> r.i1 < 512);
      forall j | 0 <= j < 512 ensures u.tables[t][j] == 0 {
        var q := EntryRef(r, j);
        if r.Low? { LeafIndex(r.i2, r.i1, j); }
        assert Parent(u, q) == t && Index(q) == j && Gone(q, r, 512);
        assert Entry(u, q) == 0;
      }
      assert u.tables[t] == seq(512, _ => 0);
    }
  }

  /** Below the first i + 1 entries is below the first i, the entry i itself, or below that. */
  lemma GoneNext(q: Ref, r: Ref, i: nat)
    requires !r.Leaf? && i < 512 && (r.Low? ==> r.i1 < 512)
    ensures Gone(q, r, i + 1) <==> Gone(q, r, i) || q == EntryRef(r, i) || Below(q, EntryRef(r, i))
  {
    if r.Low? && q.Leaf? {
      LeafIndex(r.i2, r.i1, i);
      Indices(q.v, EntryRef(r, i).v);
    }
  }

  /** The page of an emptied entry can be unlinked and freed. */
  lemma ChildFreed(u: Mem, h: Owners, w: Mem, k: Owners, q: Ref)
    requires Emptied(u, h, w, k, q, 512) && (q.Mid? || q.Low?) && IsValid(Entry(w, q))
    ensures var c := PageOf(Entry(w, q));
      && HasSlot(w, q) && Harmless(w, k, q, 0) && c in k.own && k.own[c] == q
      && VmOk(Given(Set(w, q, 0), c), k.(own := k.own - {c}))
  {
    assert Key(0) == 0;
    var c := PageOf(Entry(w, q));
    assert FlagsOk(w, q) && RefOk(w, k, q) && PageOk(w, k, c);
    TablesOwned(w, k, q);
    EmptyIsBlank(u, h, w, k, q);
    ClearKeeps(w, k, q);
    GiveKeeps(Set(w, q, 0), Unlinked(k, c), c);
    assert Unlinked(k, c).(spare := Unlinked(k, c).spare - {c}) == k.(own := k.own - {c});
  }

  lemma EmptiedOthers(m: Mem, g: Owners, u: Mem, h: Owners, r: Ref, i: nat, w: Mem, k: Owners, c: nat, y: Mem)
    requires Emptied(m, g, u, h, r, i) && Emptied(u, h, w, k, EntryRef(r, i), 512) && c in k.own
    requires y.roots == w.roots && y.data == w.data[c := Junk(1)]
    ensures OthersKept(m, g, y, k.(own := k.own - {c}))
  {
    assert Key(0) == 0;
    assert PageOk(w, k, c);
  }

  /** Entries depend on the tables and the roots alone. */
  lemma SameEntries(x: Mem, y: Mem, z: Ref)
    requires y.tables == x.tables && y.roots == x.roots
    ensures Entry(y, z) == Entry(x, z)
  {
  }

  lemma EntryGone(m: Mem, u: Mem, r: Ref, i: nat, w: Mem, k: Owners, z: Ref)
    requires (r.Root? || r.Mid?) && i < 512 && EntriesGone(m, u, r, i) && EntriesGone(u, w, EntryRef(r, i), 512)
    requires HasSlot(w, EntryRef(r, i)) && Harmless(w, k, EntryRef(r, i), 0) && !z.Root?
    ensures Entry(Set(w, EntryRef(r, i), 0), z) == if Gone(z, r, i + 1) then 0 else Entry(m, z)
  {
    EntryAfter(w, k, EntryRef(r, i), 0, z);
    GoneNext(z, r, i);
  }

  lemma EmptiedEntries(m: Mem, u: Mem, r: Ref, i: nat, w: Mem, k: Owners, y: Mem)
    requires (r.Root? || r.Mid?) && i < 512 && EntriesGone(m, u, r, i) && EntriesGone(u, w, EntryRef(r, i), 512)
    requires HasSlot(w, EntryRef(r, i)) && Harmless(w, k, EntryRef(r, i), 0)
    requires y.tables == Set(w, EntryRef(r, i), 0).tables && y.roots == w.roots
    ensures EntriesGone(m, y, r, i + 1)
  {
    forall z: Ref | !z.Root? ensures Entry(y, z) == if Gone(z, r, i + 1) then 0 else Entry(m, z) {
      EntryGone(m, u, r, i, w, k, z);
      SameEntries(Set(w, EntryRef(r, i), 0), y, z);
    }
  }

  lemma EmptiedParts(m: Mem, g: Owners, u: Mem, h: Owners, r: Ref, n: nat)
    requires Emptied(m, g, u, h, r, n)
    ensures EntriesGone(m, u, r, n)
  {
    assert Key(0) == 0;
  }

  lemma EmptiedOwners(m: Mem, g: Owners, u: Mem, h: Owners, r: Ref, i: nat, w: Mem, k: Owners, c: nat, y: Mem)
    requires VmOk(m, g) && (r.Root? || r.Mid?) && i < 512 && Emptied(m, g, u, h, r, i) &&
      Emptied(u, h, w, k, EntryRef(r, i), 512)
    requires c in k.own && k.own[c] == EntryRef(r, i) && y.free == [c] + w.free
    ensures OwnersGone(m, g, y, k.(own := k.own - {c}), r, i + 1)
  {
    assert Key(0) == 0;
    var q := EntryRef(r, i);
    forall x: nat | x in g.own
      ensures (Gone(g.own[x], r, i + 1) <==> Gone(g.own[x], r, i) || x == c || Gone(g.own[x], q, 512)) {
      GoneNext(g.own[x], r, i);
      assert PageOk(m, g, x) && PageOk(m, g, c);
      assert Below(g.own[x], q) ==> Index(g.own[x]) < 512;
    }
    forall z: nat ensures z in y.free <==> z in w.free || z == c {}
  }

  /** Clearing the emptied entry i of r and freeing its page. */
  lemma EmptiedNext(m: Mem, g: Owners, u: Mem, h: Owners, r: Ref, i: nat, w: Mem, k: Owners)
    requires VmOk(m, g) && (r.Root? || r.Mid?) && i < 512 && Emptied(m, g, u, h, r, i)
    requires Emptied(u, h, w, k, EntryRef(r, i), 512) && IsValid(Entry(w, EntryRef(r, i)))
    ensures var q := EntryRef(r, i); var c := PageOf(Entry(w, q));
      && HasSlot(w, q) && c in k.own && Emptied(m, g, Given(Set(w, q, 0), c), k.(own := k.own - {c}), r, i + 1)
  {
    var q := EntryRef(r, i);
    var c := PageOf(Entry(w, q));
    ChildFreed(u, h, w, k, q);
    var y := Given(Set(w, q, 0), c);
    EmptiedOwners(m, g, u, h, r, i, w, k, c, y);
    EmptiedParts(m, g, u, h, r, i);
    EmptiedParts(u, h, w, k, q, 512);
    EmptiedEntries(m, u, r, i, w, k, y);
    EmptiedOthers(m, g, u, h, r, i, w, k, c, y);
    assert EmptiedBody(m, g, y, k.(own := k.own - {c}), r, i + 1);
  }

  /** Entry i of r is empty already: nothing hangs from it. */
  lemma EmptiedSkip(m: Mem, g: Owners, u: Mem, h: Owners, r: Ref, i: nat)
    requires VmOk(m, g) && !r.Leaf? && Target(m, r) != 0 && i < 512 && Emptied(m, g, u, h, r, i)
    requires !IsValid(Entry(u, EntryRef(r, i)))
    ensures Emptied(m, g, u, h, r, i + 1)
  {
    assert Key(0) == 0;
    var q := EntryRef(r, i);
    assert FlagsOk(u, q);
    forall y: Ref | !y.Root? && Gone(y, r, i + 1) && !Gone(y, r, i) ensures Entry(m, y) == 0 {
      GoneNext(y, r, i);
      NothingBelow(u, q, y);
    }
    forall x: nat | x in g.own && Gone(g.own[x], r, i + 1) ensures Gone(g.own[x], r, i) {
      assert PageOk(m, g, x);
      assert !Gone(g.own[x], r, i) ==> Entry(m, g.own[x]) == 0;
    }
    assert EmptiedBody(m, g, u, h, r, i + 1);
  }

  lemma NothingBelow(u: Mem, q: Ref, y: Ref)
    requires !q.Root? && Entry(u, q) == 0 && (y == q || Below(y, q)) && !y.Root?
    ensures Entry(u, y) == 0
  {
  }

  /** An entry that is valid without any of R, W and X, which freewalk takes for a table. */
  predicate PointsToTable(pte: nat) { IsValid(pte) && pte / 2 % 8 == 0 }

  /** Every mapping of the space has R, W or X. */
  ghost predicate LeavesShow(m: Mem, id: nat) {
    forall v: nat :: PteAt(m, id, v) != 0 ==> !PointsToTable(PteAt(m, id, v))
  }

  /** No leaf is mapped below the first n entries of the table r. */
  ghost predicate NoLeaf(m: Mem, r: Ref, n: nat) {
    forall v: nat :: Gone(Leaf(r.id, v), r, n) ==> PteAt(m, r.id, v) == 0
  }

  lemma NoLeafNext(m: Mem, u: Mem, r: Ref, i: nat)
    requires EntriesGone(m, u, r, i) && NoLeaf(m, r, i) && (r.Root? || r.Mid?) && i < 512
    ensures NoLeaf(m, r, i + 1) <==> NoLeaf(u, EntryRef(r, i), 512)
  {
    var q := EntryRef(r, i);
    forall v: nat
      ensures Gone(Leaf(r.id, v), r, i + 1) <==> Gone(Leaf(r.id, v), r, i) || Gone(Leaf(r.id, v), q, 512)
      ensures Gone(Leaf(r.id, v), q, 512) ==> PteAt(u, r.id, v) == PteAt(m, r.id, v)
    {
      GoneNext(Leaf(r.id, v), r, i);
      assert Entry(u, Leaf(r.id, v)) == if Gone(Leaf(r.id, v), r, i) then 0 else Entry(m, Leaf(r.id, v));
    }
  }

  lemma NoLeafHere(m: Mem, u: Mem, r: Ref, i: nat)
    requires EntriesGone(m, u, r, i) && NoLeaf(m, r, i) && r.Low? && r.i1 < 512 && i < 512
    ensures NoLeaf(m, r, i + 1) <==> Entry(u, EntryRef(r, i)) == 0
  {
    var q := EntryRef(r, i);
    LeafIndex(r.i2, r.i1, i);
    assert Gone(q, r, i + 1) && !Gone(q, r, i) && Entry(u, q) == Entry(m, q) == PteAt(m, r.id, q.v);
    forall v: nat | Gone(Leaf(r.id, v), r, i + 1) ensures v == q.v || Gone(Leaf(r.id, v), r, i) {
      GoneNext(Leaf(r.id, v), r, i);
    }
  }

  /** Entry i of r has nothing in it, so no leaf either. */
  lemma NoLeafSkip(m: Mem, u: Mem, r: Ref, i: nat)
    requires EntriesGone(m, u, r, i) && NoLeaf(m, r, i) && !r.Leaf? && (r.Low? ==> r.i1 < 512) && i < 512
    requires Entry(u, EntryRef(r, i)) == 0
    ensures NoLeaf(m, r, i + 1)
  {
    if r.Low? {
      NoLeafHere(m, u, r, i);
    } else {
      var q := EntryRef(r, i);
      forall v: nat | Gone(Leaf(r.id, v), q, 512) ensures PteAt(u, r.id, v) == 0 { NothingBelow(u, q, Leaf(r.id, v)); }
      NoLeafNext(m, u, r, i);
    }
  }

  /** One turn of freewalk in the table r: what hangs from entry i goes, unless a leaf is met. */
  method EmptyEntry(ghost m0: Mem, ghost g0: Owners, m1: Mem, ghost g1: Owners, r: Ref, t: nat, i: nat)
    returns (m: Mem, ghost g: Owners, panic: bool)
    requires VmOk(m0, g0) && !r.Leaf? && i < 512 && Emptied(m0, g0, m1, g1, r, i)
    requires Target(m0, r) == t != 0 && LeavesShow(m0, r.id) && NoLeaf(m0, r, i)
    ensures panic <==> !NoLeaf(m0, r, i + 1)
    ensures !panic ==> Emptied(m0, g0, m, g, r, i + 1)
    decreases if r.Root? then 2 else if r.Mid? then 1 else 0, 0
  {
    var q := EntryRef(r, i);
    EmptiedAt(m0, g0, m1, g1, r, i, t);
    EmptiedParts(m0, g0, m1, g1, r, i);
    EntryIn(m1, g1, r, t, i);
    var pte := m1.tables[t][i];
    if PointsToTable(pte) {
      var c := PageOf(pte);
      NoLeafNext(m0, m1, r, i);
      m, g, panic := EmptyTable(m1, g1, q, c);
      if panic { return; }
      EmptiedAt(m1, g1, m, g, q, 512, c);
      EmptiedNext(m0, g0, m1, g1, r, i, m, g);
      EmptiedParts(m1, g1, m, g, q, 512);
      assert Entry(m, q) == pte;
      m := m.(tables := m.tables[t := m.tables[t][i := 0]]);
      m, g := Given(m, c), g.(own := g.own - {c});
    } else if IsValid(pte) {
      NoLeafHere(m0, m1, r, i);
      m, g, panic := m1, g1, true;
    } else {
      NoLeafSkip(m0, m1, r, i);
      EmptiedSkip(m0, g0, m1, g1, r, i);
      m, g, panic := m1, g1, false;
    }
  }

  /** The entry that freewalk reads: above the lowest level it is 0 or a table, there it is 0 or a leaf. */
  lemma EntryIn(m: Mem, g: Owners, r: Ref, t: nat, i: nat)
    requires VmOk(m, g) && !r.Leaf? && Target(m, r) == t != 0 && LeavesShow(m, r.id) && i < 512
    ensures t in m.tables && (r.Low? ==> r.i1 < 512) && Parent(m, EntryRef(r, i)) == t && Index(EntryRef(r, i)) == i
    ensures m.tables[t][i] == Entry(m, EntryRef(r, i)) && (!IsValid(m.tables[t][i]) ==> m.tables[t][i] == 0)
    ensures IsValid(m.tables[t][i]) ==> (PointsToTable(m.tables[t][i]) <==> !r.Low?)
    ensures IsValid(m.tables[t][i]) && !r.Low? ==> Target(m, EntryRef(r, i)) == PageOf(m.tables[t][i]) != 0
  {
    var q := EntryRef(r, i);
    if r.Low? { LeafIndex(r.i2, r.i1, i); }
    TablesOwned(m, g, q);
    assert FlagsOk(m, q);
    if r.Low? { assert Entry(m, q) == PteAt(m, r.id, q.v); }
  }

  /** freewalk without the final kfree of the table's own page, which the caller does with the entry's: all tables
      below r are freed, children before parents; it panics exactly when a leaf is mapped below r. */
  method EmptyTable(m0: Mem, ghost g0: Owners, r: Ref, t: nat) returns (m: Mem, ghost g: Owners, panic: bool)
    requires VmOk(m0, g0) && !r.Leaf? && Target(m0, r) == t != 0 && LeavesShow(m0, r.id)
    ensures panic <==> !NoLeaf(m0, r, 512)
    ensures !panic ==> Emptied(m0, g0, m, g, r, 512)
    decreases if r.Root? then 2 else if r.Mid? then 1 else 0, 1
  {
    m, g, panic := m0, g0, false;
    EmptiedNone(m, g, r);
    var i: nat := 0;
    while i < 512
      invariant i <= 512 && !panic && NoLeaf(m0, r, i) && Emptied(m0, g0, m, g, r, i)
    {
      m, g, panic := EmptyEntry(m0, g0, m, g, r, t, i);
      if panic {
        LeafStays(m0, r, i + 1);
        return;
      }
      i := i + 1;
    }
  }

  lemma LeafStays(m: Mem, r: Ref, n: nat)
    requires !NoLeaf(m, r, n) && n <= 512
    ensures !NoLeaf(m, r, 512)
  {
    var v: nat :| Gone(Leaf(r.id, v), r, n) && PteAt(m, r.id, v) != 0;
    assert Gone(Leaf(r.id, v), r, 512);
  }

  lemma EmptiedAt(m: Mem, g: Owners, u: Mem, h: Owners, r: Ref, n: nat, t: nat)
    requires Emptied(m, g, u, h, r, n) && Target(m, r) == t != 0 && !r.Leaf? && LeavesShow(m, r.id)
    ensures VmOk(u, h) && Target(u, r) == t && LeavesShow(u, r.id)
  {
    assert Key(0) == 0;
    forall v: nat ensures PteAt(u, r.id, v) == 0 || PteAt(u, r.id, v) == PteAt(m, r.id, v) {
      assert Entry(m, Leaf(r.id, v)) == PteAt(m, r.id, v) && Entry(u, Leaf(r.id, v)) == PteAt(u, r.id, v);
    }
    if !r.Root? { assert Entry(u, r) == Entry(m, r); }
  }

  /** kfree of the emptied root. */
  function RootGiven(m: Mem, id: nat): Mem { Given(m.(roots := m.roots - {id}), id) }

  lemma RootFreed(m: Mem, g: Owners, id: nat)
    requires VmOk(m, g) && id in m.roots && forall q: Ref :: !q.Root? && q.id == id ==> Entry(m, q) == 0
    ensures id in g.own && VmOk(RootGiven(m, id), g.(own := g.own - {id}))
    ensures forall q: Ref :: !q.Root? ==> Entry(RootGiven(m, id), q) == Entry(m, q)
  {
    var u, h := RootGiven(m, id), g.(own := g.own - {id});
    assert RefOk(m, g, Root(id)) && PageOk(m, g, id);
    forall q: Ref ensures (!q.Root? ==> Entry(u, q) == Entry(m, q)) && RefOk(u, h, q) && FlagsOk(u, q) {
      assert RefOk(m, g, q) && FlagsOk(m, q);
      assert q.id != id ==> Parent(u, q) == Parent(m, q);
    }
    forall x: nat ensures PageOk(u, h, x) {
      assert PageOk(m, g, x) && (x in u.free <==> x in m.free || x == id);
    }
  }

  /** All pages of space id are on the free list, each once, and nothing else has changed. */
  ghost predicate Released(m: Mem, g: Owners, u: Mem, h: Owners, id: nat) {
    && VmOk(u, h) && u.roots == m.roots - {id} && h.pool == g.pool && h.spare == g.spare
    && (forall x: nat :: x in h.own <==> x in g.own && g.own[x].id != id)
    && (forall x: nat :: x in h.own ==> h.own[x] == g.own[x] && (x in m.data ==> x in u.data && u.data[x] == m.data[x]))
    && (forall x: nat :: x in u.free <==> x in m.free || (x in g.own && g.own[x].id == id))
    && (forall s: nat, v: nat :: s != id ==> PteAt(u, s, v) == PteAt(m, s, v))
  }

  lemma NoLeafAtAll(m: Mem, id: nat)
    ensures NoLeaf(m, Root(id), 512) <==> forall v: nat :: PteAt(m, id, v) == 0
  {
    forall v: nat | !Gone(Leaf(id, v), Root(id), 512) ensures PteAt(m, id, v) == 0 {
      assert MidTable(m, id, I2(v)) == 0;
    }
  }

  /** freewalk: every table page of the space is freed exactly once; it panics exactly when a page is still mapped. */
  method Freewalk(m0: Mem, ghost g0: Owners, id: nat) returns (m: Mem, ghost g: Owners, panic: bool)
    requires VmOk(m0, g0) && id in m0.roots && LeavesShow(m0, id)
    ensures panic <==> exists v: nat :: PteAt(m0, id, v) != 0
    ensures !panic ==> Released(m0, g0, m, g, id)
  {
    var u, h, p := EmptyTable(m0, g0, Root(id), id);
    panic := p;
    NoLeafAtAll(m0, id);
    if panic { return u, h, true; }
    AllGone(m0, g0, u, h, id);
    RootFreed(u, h, id);
    WalkReleased(m0, g0, u, h, id);
    m, g := RootGiven(u, id), h.(own := h.own - {id});
  }

  lemma AllGone(m: Mem, g: Owners, u: Mem, h: Owners, id: nat)
    requires VmOk(m, g) && Emptied(m, g, u, h, Root(id), 512) && id in m.roots
    ensures VmOk(u, h) && id in u.roots && forall q: Ref :: !q.Root? && q.id == id ==> Entry(u, q) == 0
  {
    assert Key(0) == 0;
    forall q: Ref | !q.Root? && q.id == id ensures Entry(u, q) == 0 {
      assert Branch(q, Root(id)) >= 512 ==> MidTable(u, id, Branch(q, Root(id))) == 0;
    }
  }

  lemma WalkReleased(m: Mem, g: Owners, u: Mem, h: Owners, id: nat)
    requires VmOk(m, g) && Emptied(m, g, u, h, Root(id), 512) && id in m.roots && id in h.own
    requires VmOk(RootGiven(u, id), h.(own := h.own - {id})) && forall q: Ref :: !q.Root? ==>
      Entry(RootGiven(u, id), q) == Entry(u, q)
    ensures Released(m, g, RootGiven(u, id), h.(own := h.own - {id}), id)
  {
    assert Key(0) == 0;
    forall x: nat | x in g.own && g.own[x].id == id ensures x == id || Gone(g.own[x], Root(id), 512) {
      assert PageOk(m, g, x) && RefOk(m, g, Root(id));
    }
    forall z: nat ensures z in RootGiven(u, id).free <==> z in u.free || z == id {}
    forall s: nat, v: nat | s != id ensures PteAt(RootGiven(u, id), s, v) == PteAt(m, s, v) {
      assert Entry(RootGiven(u, id), Leaf(s, v)) == Entry(u, Leaf(s, v)) == Entry(m, Leaf(s, v));
    }
    assert RefOk(m, g, Root(id)) && PageOk(u, h, id);
  }

  lemma UnmappedAll(m: Mem, g: Owners, u: Mem, h: Owners, id: nat, n: nat)
    requires Unmapped(m, g, u, h, id, 0, n, true) && LeavesShow(m, id)
    ensures VmOk(u, h) && u.roots == m.roots && LeavesShow(u, id)
    ensures forall v: nat :: PteAt(u, id, v) == if v < n then 0 else PteAt(m, id, v)
  {
    assert Key(0) == 0;
  }

  lemma ReleasedTwice(m: Mem, g: Owners, u: Mem, h: Owners, w: Mem, k: Owners, id: nat, n: nat)
    requires Unmapped(m, g, u, h, id, 0, n, true) && Released(u, h, w, k, id)
    ensures Released(m, g, w, k, id)
  {
    assert Key(0) == 0;
  }

  /** uvmfree: every table page and every leaf page of the space is returned to the free list exactly once. It
      panics exactly when a page below sz cannot be unmapped or one from sz on is mapped. */
  method Uvmfree(m0: Mem, ghost g0: Owners, id: nat, sz: nat) returns (m: Mem, ghost g: Owners, panic: bool)
    requires VmOk(m0, g0) && id in m0.roots && LeavesShow(m0, id)
    ensures panic <==>
      || (exists v: nat :: v < Pages(sz) && !Removable(m0, g0.pool, id, v, true))
      || (exists v: nat :: v >= Pages(sz) && PteAt(m0, id, v) != 0)
    ensures !panic ==> Released(m0, g0, m, g, id)
  {
    m, g, panic := m0, g0, false;
    ghost var n := if sz > 0 then Pages(sz) else 0;
    if sz > 0 {
      m, g, panic := UnmapRange(m0, g0, id, 0, Pages(sz), true);
      if panic { return; }
    } else {
      UnmappedNone(m0, g0, id, 0, true);
    }
    ghost var u, h := m, g;
    UnmappedAll(m0, g0, m, g, id, n);
    m, g, panic := Freewalk(m, g, id);
    if !panic { ReleasedTwice(m0, g0, u, h, m, g, id, n); }
  }

  // ---------------------------------------------------------------- the memory as an object

  class Memory {
    var m: Mem
    ghost var g: Owners

    ghost predicate Valid()
      reads this
    {
      VmOk(m, g)
    }

    constructor (m: Mem, ghost g: Owners)
      requires VmOk(m, g)
      ensures Valid() && this.m == m && this.g == g
    {
      this.m, this.g := m, g;
    }

    /** uvmalloc. */
    method Grow(id: nat, oldsz: nat, newsz: nat) returns (ret: nat, r: Outcome)
      requires Valid() && id in m.roots
      modifies this
      ensures newsz >= oldsz && r.Done? ==>
        ret == newsz && Extended(old(m), old(g), m, g, id, Pages(oldsz), ZeroFills(Pages(newsz) - Pages(oldsz)))
      ensures newsz < oldsz ==> m == old(m) && ret == oldsz && r.Done?
      ensures r.Failed? ==> ret == 0 && OnlyTables(old(m), old(g), m, g) && |m.free| <= Pages(newsz) - Pages(oldsz)
      ensures r.Panicked? ==> exists v: nat ::
        Pages(oldsz) <= v < Pages(newsz) && (v * PGSIZE >= MAXVA || IsValid(PteAt(old(m), id, v)))
    {
      var u, h, x, o := Uvmalloc(m, g, id, oldsz, newsz);
      m, g, ret, r := u, h, x, o;
    }

    /** uvmdealloc. */
    method Shrink(id: nat, oldsz: nat, newsz: nat) returns (ret: nat, panic: bool)
      requires Valid() && id in m.roots
      modifies this
      ensures panic <==> newsz < oldsz && exists v: nat ::
        Pages(newsz) <= v < Pages(oldsz) && !Removable(old(m), old(g).pool, id, v, true)
      ensures !panic && newsz < oldsz ==>
        Unmapped(old(m), old(g), m, g, id, Pages(newsz), Pages(oldsz) - Pages(newsz), true)
      ensures newsz >= oldsz ==> m == old(m) && ret == oldsz
    {
      var u, h, x, p := Uvmdealloc(m, g, id, oldsz, newsz);
      m, g, ret, panic := u, h, x, p;
    }

    /** uvmcopy from 0. */
    method Copy(src: nat, dst: nat, end: nat) returns (r: Outcome)
      requires Valid() && src in m.roots && dst in m.roots && src != dst && Copyable(m, g.pool, src, Pages(end))
      modifies this
      ensures r.Done? ==> Extended(old(m), old(g), m, g, dst, 0, CopyFills(old(m), src, Pages(end)))
      ensures r.Failed? ==> OnlyTables(old(m), old(g), m, g) && |m.free| <= Pages(end)
      ensures r.Panicked? ==> exists v: nat ::
        v < Pages(end) && (v * PGSIZE >= MAXVA || !IsValid(PteAt(old(m), src, v)) || IsValid(PteAt(old(m), dst, v)))
    {
      var u, h, o := Uvmcopy(m, g, src, dst, end);
      m, g, r := u, h, o;
    }

    /** uvmfree. */
    method Release(id: nat, sz: nat) returns (panic: bool)
      requires Valid() && id in m.roots && LeavesShow(m, id)
      modifies this
      ensures panic <==>
        || (exists v: nat :: v < Pages(sz) && !Removable(old(m), old(g).pool, id, v, true))
        || (exists v: nat :: v >= Pages(sz) && PteAt(old(m), id, v) != 0)
      ensures !panic ==> Valid() && Released(old(m), old(g), m, g, id)
    {
      var u, h, p := Uvmfree(m, g, id, sz);
      m, g, panic := u, h, p;
    }
  }
}
