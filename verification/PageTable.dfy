/** Sv39 page tables (kernel/vm.c, kernel/riscv.h; section 4.4 of the RISC-V Privileged Architecture): the
    three-level tree as a flat map of pages, and who owns which page of the pool of kernel/kalloc.c. Pages are
    named by their page number, and a page used as a table is seen as its 512 entries. */
module PageTable {
  import opened Basics

  const PGSIZE: nat := 4096
  const MAXVA: nat := 0x40_0000_0000
  const PTE_V: nat := 1

  type Table = s: seq<nat> | |s| == 512 witness seq(512, _ => 0)

  type Page = s: seq<Byte> | |s| == PGSIZE witness seq(PGSIZE, _ => 0)

  // ---------------------------------------------------------------- entries and indices

  /** A page table entry: PA2PTE(pa) | flags, with pa the address of page p. */
  function Pte(p: nat, flags: nat): nat { p * 1024 + flags }

  function PageOf(pte: nat): nat { pte / 1024 }

  function Flags(pte: nat): nat { pte % 1024 }

  predicate IsValid(pte: nat) { pte % 2 == 1 }

  /** perm | PTE_V. */
  function OrValid(perm: nat): nat { perm - perm % 2 + 1 }

  /** PTE2PA undoes PA2PTE whatever the flags, and PTE_FLAGS gives the flags back. */
  lemma PteRoundTrip(p: nat, flags: nat)
    requires flags < 1024
    ensures PageOf(Pte(p, flags)) == p && Flags(Pte(p, flags)) == flags && (IsValid(Pte(p, flags)) <==> flags % 2 == 1)
  {
  }

  /** PX(2, va), PX(1, va) and PX(0, va) of the page number v of a virtual address. */
  function I2(v: nat): nat { v / 0x4_0000 }

  function I1(v: nat): nat { v / 512 % 512 }

  function I0(v: nat): nat { v % 512 }

  lemma Indices(v: nat, w: nat)
    ensures I2(v) == I2(w) && I1(v) == I1(w) && I0(v) == I0(w) <==> v == w
  {
    assert v == I2(v) * 0x4_0000 + I1(v) * 512 + I0(v) by { assert v / 512 / 512 == v / 0x4_0000; }
    assert w == I2(w) * 0x4_0000 + I1(w) * 512 + I0(w) by { assert w / 512 / 512 == w / 0x4_0000; }
  }

  // ---------------------------------------------------------------- memory and its owners

  /** free is kmem.freelist, its head first; roots are the page tables in use; the pool is the pages from lo
      (the end of the kernel) to hi (PHYSTOP). */
  datatype Mem = Mem(tables: map<nat, Table>, data: map<nat, Page>, free: seq<nat>, roots: set<nat>, lo: nat, hi: nat)

  /** A place that refers to a page: a root, an entry of a root or of a middle table, or a leaf entry. */
  datatype Ref = Root(id: nat) | Mid(id: nat, i2: nat) | Low(id: nat, i2: nat, i1: nat) | Leaf(id: nat, v: nat)

  function EntryAt(m: Mem, t: nat, i: nat): nat {
    if t == 0 || t !in m.tables || i >= 512 then 0 else m.tables[t][i]
  }

  function Child(m: Mem, t: nat, i: nat): nat {
    if IsValid(EntryAt(m, t, i)) then PageOf(EntryAt(m, t, i)) else 0
  }

  function RootTable(m: Mem, id: nat): nat { if id in m.roots then id else 0 }

  function MidTable(m: Mem, id: nat, i2: nat): nat { Child(m, RootTable(m, id), i2) }

  function LowTable(m: Mem, id: nat, i2: nat, i1: nat): nat { Child(m, MidTable(m, id, i2), i1) }

  /** The leaf entry for page v of address space id, 0 when there is no table for it. */
  function PteAt(m: Mem, id: nat, v: nat): nat { EntryAt(m, LowTable(m, id, I2(v), I1(v)), I0(v)) }

  function Target(m: Mem, r: Ref): nat {
    match r
    case Root(id) => RootTable(m, id)
    case Mid(id, i2) => MidTable(m, id, i2)
    case Low(id, i2, i1) => LowTable(m, id, i2, i1)
    case Leaf(id, v) => Child(m, LowTable(m, id, I2(v), I1(v)), I0(v))
  }

  /** The table that holds the entry r, and the entry's index in it. */
  function Parent(m: Mem, r: Ref): nat {
    match r
    case Root(_) => 0
    case Mid(id, _) => RootTable(m, id)
    case Low(id, i2, _) => MidTable(m, id, i2)
    case Leaf(id, v) => LowTable(m, id, I2(v), I1(v))
  }

  function ParentRef(r: Ref): Ref {
    match r
    case Root(id) => r
    case Mid(id, _) => Root(id)
    case Low(id, i2, _) => Mid(id, i2)
    case Leaf(id, v) => Low(id, I2(v), I1(v))
  }

  function Index(r: Ref): nat {
    match r
    case Root(_) => 0
    case Mid(_, i2) => i2
    case Low(_, _, i1) => i1
    case Leaf(_, v) => I0(v)
  }

  function Entry(m: Mem, r: Ref): nat { EntryAt(m, Parent(m, r), Index(r)) }

  /** own says which place refers to a page of the pool; spare pages are held by the kernel otherwise. */
  datatype Owners = Owners(own: map<nat, Ref>, pool: set<nat>, spare: set<nat>)

  ghost predicate RefOk(m: Mem, g: Owners, r: Ref) {
    Target(m, r) != 0 && (r.Leaf? ==> Target(m, r) in g.pool) ==> Target(m, r) in g.own && g.own[Target(m, r)] == r
  }

  ghost predicate PageOk(m: Mem, g: Owners, p: nat) {
    && (p in g.own ==>
      p in g.pool && Target(m, g.own[p]) == p && p !in m.free && p !in g.spare && (!g.own[p].Leaf? ==> p in m.tables))
    && (p in m.free ==> p in g.pool && p !in g.spare)
    && (p in g.spare ==> p in g.pool)
    && (p in g.pool <==> m.lo <= p < m.hi)
    && (p in g.pool ==> 0 < p && p in m.data && (p in g.own || p in m.free || p in g.spare))
  }

  predicate Distinct(s: seq<nat>) { forall i, j :: 0 <= i < j < |s| ==> s[i] != s[j] }

  /** Entries above the leaves have no flag but V, leaf entries have another, and invalid entries are 0. */
  ghost predicate FlagsOk(m: Mem, r: Ref) {
    var e := Entry(m, r);
    !r.Root? && e != 0 ==> IsValid(e) && (Flags(e) == PTE_V <==> !r.Leaf?) && PageOf(e) != 0
  }

  /** Free pages, table pages, leaf pages and spare pages partition the pool; every table page has one parent
      and every leaf page of the pool one mapping. */
  ghost predicate VmOk(m: Mem, g: Owners) {
    && (forall r: Ref :: RefOk(m, g, r) && FlagsOk(m, r))
    && (forall p: nat :: PageOk(m, g, p))
    && Distinct(m.free) && 0 !in m.roots
  }

  // ---------------------------------------------------------------- kalloc and kfree

  function Junk(x: Byte): Page { seq(PGSIZE, _ => x) }

  function Taken(m: Mem): Mem
    requires |m.free| > 0
  {
    m.(free := m.free[1..], data := m.data[m.free[0] := Junk(5)])
  }

  function Given(m: Mem, p: nat): Mem { m.(free := [p] + m.free, data := m.data[p := Junk(1)]) }

  /** References depend on the tables alone. */
  lemma RefsKept(m: Mem, g: Owners, u: Mem, h: Owners)
    requires VmOk(m, g) && u.tables == m.tables && u.roots == m.roots && h.own == g.own && h.pool == g.pool
    ensures forall r: Ref :: RefOk(u, h, r) && FlagsOk(u, r)
    ensures forall r: Ref :: Target(u, r) == Target(m, r)
  {
    forall r: Ref ensures Target(u, r) == Target(m, r) && RefOk(u, h, r) && FlagsOk(u, r) {
      assert RefOk(m, g, r) && FlagsOk(m, r);
      assert Target(u, r) == Target(m, r) && Entry(u, r) == Entry(m, r);
    }
  }

  lemma TakeKeeps(m: Mem, g: Owners)
    requires VmOk(m, g) && |m.free| > 0
    ensures VmOk(Taken(m), g.(spare := g.spare + {m.free[0]})) && m.free[0] in g.pool && m.free[0] !in g.own
  {
    var u, h, p := Taken(m), g.(spare := g.spare + {m.free[0]}), m.free[0];
    assert p in m.free && p !in m.free[1..] && PageOk(m, g, p);
    RefsKept(m, g, u, h);
    forall q: nat ensures PageOk(u, h, q) {
      assert PageOk(m, g, q) && (q in m.free <==> q in m.free[1..] || q == p);
    }
  }

  lemma GiveKeeps(m: Mem, g: Owners, p: nat)
    requires VmOk(m, g) && p in g.spare
    ensures VmOk(Given(m, p), g.(spare := g.spare - {p}))
  {
    var u, h := Given(m, p), g.(spare := g.spare - {p});
    assert PageOk(m, g, p);
    RefsKept(m, g, u, h);
    forall q: nat ensures PageOk(u, h, q) {
      assert PageOk(m, g, q) && (q in u.free <==> q in m.free || q == p);
    }
  }

  // ---------------------------------------------------------------- writing an entry

  predicate HasSlot(m: Mem, r: Ref) { !r.Root? && Parent(m, r) != 0 && Parent(m, r) in m.tables && Index(r) < 512 }

  function Set(m: Mem, r: Ref, pte: nat): Mem
    requires HasSlot(m, r)
  {
    m.(tables := m.tables[Parent(m, r) := m.tables[Parent(m, r)][Index(r) := pte]])
  }

  function ChildOf(pte: nat): nat { if IsValid(pte) then PageOf(pte) else 0 }

  /** Two places share a slot only if they are the same. */
  lemma SameSlot(m: Mem, g: Owners, q: Ref, r: Ref)
    requires VmOk(m, g) && !q.Root? && !r.Root? && Parent(m, q) == Parent(m, r) != 0 && Index(q) == Index(r)
    ensures q == r
  {
    assert RefOk(m, g, ParentRef(q)) && RefOk(m, g, ParentRef(r));
    if q.Leaf? && r.Leaf? { Indices(q.v, r.v); }
  }

  /** Nothing hangs below x. */
  predicate Blank(m: Mem, x: nat) { x == 0 || x !in m.tables || m.tables[x] == seq(512, _ => 0) }

  /** Writing pte at r changes nothing below r. */
  ghost predicate Harmless(m: Mem, g: Owners, r: Ref, pte: nat) {
    && VmOk(m, g) && HasSlot(m, r)
    && (!r.Leaf? ==> Blank(m, ChildOf(Entry(m, r))) && Blank(m, ChildOf(pte)) && (ChildOf(pte) in g.own ==>
      g.own[ChildOf(pte)] == r))
  }

  lemma ParentOwned(m: Mem, g: Owners, r: Ref)
    requires VmOk(m, g) && HasSlot(m, r)
    ensures Parent(m, r) in g.own && g.own[Parent(m, r)] == ParentRef(r)
  {
    assert RefOk(m, g, ParentRef(r));
  }

  lemma MidAfter(m: Mem, g: Owners, r: Ref, pte: nat, id: nat, i2: nat)
    requires Harmless(m, g, r, pte)
    ensures Entry(Set(m, r, pte), Mid(id, i2)) == if r == Mid(id, i2) then pte else Entry(m, Mid(id, i2))
  {
    if Parent(m, Mid(id, i2)) == Parent(m, r) && i2 == Index(r) { SameSlot(m, g, Mid(id, i2), r); }
  }

  lemma LowAfter(m: Mem, g: Owners, r: Ref, pte: nat, id: nat, i2: nat, i1: nat)
    requires Harmless(m, g, r, pte)
    ensures Entry(Set(m, r, pte), Low(id, i2, i1)) == if r == Low(id, i2, i1) then pte else Entry(m, Low(id, i2, i1))
  {
    MidAfter(m, g, r, pte, id, i2);
    ParentOwned(m, g, r);
    if r != Mid(id, i2) && Parent(m, Low(id, i2, i1)) == Parent(m, r) &&
      i1 == Index(r) { SameSlot(m, g, Low(id, i2, i1), r); }
  }

  /** The flat map changes at r alone. */
  lemma PteAfter(m: Mem, g: Owners, r: Ref, pte: nat, id: nat, v: nat)
    requires Harmless(m, g, r, pte)
    ensures PteAt(Set(m, r, pte), id, v) == if r == Leaf(id, v) then pte else PteAt(m, id, v)
  {
    LowAfter(m, g, r, pte, id, I2(v), I1(v));
    ParentOwned(m, g, r);
    if r != Low(id, I2(v), I1(v)) && Parent(m, Leaf(id, v)) == Parent(m, r) &&
      I0(v) == Index(r) { SameSlot(m, g, Leaf(id, v), r); }
  }

  /** Writing an entry changes that entry and no other. */
  lemma EntryAfter(m: Mem, g: Owners, r: Ref, pte: nat, q: Ref)
    requires Harmless(m, g, r, pte) && !q.Root?
    ensures Entry(Set(m, r, pte), q) == if q == r then pte else Entry(m, q)
  {
    match q
    case Mid(id, i2) => MidAfter(m, g, r, pte, id, i2);
    case Low(id, i2, i1) => LowAfter(m, g, r, pte, id, i2, i1);
    case Leaf(id, v) => PteAfter(m, g, r, pte, id, v);
  }

  /** A spare page, or one outside the pool, is put into an empty entry. */
  function Linked(g: Owners, r: Ref, p: nat): Owners {
    if p in g.pool then g.(own := g.own[p := r], spare := g.spare - {p}) else g
  }

  ghost predicate CanLink(m: Mem, g: Owners, r: Ref, pte: nat) {
    var p := PageOf(pte);
    && VmOk(m, g) && HasSlot(m, r) && !IsValid(Entry(m, r)) && IsValid(pte) && p != 0 && (p in g.pool ==> p in g.spare)
    && if r.Leaf? then Flags(pte) != PTE_V
       else Flags(pte) == PTE_V && p in g.pool && p in m.tables && m.tables[p] == seq(512, _ => 0)
  }

  lemma LinkRef(m: Mem, g: Owners, r: Ref, pte: nat, q: Ref)
    requires CanLink(m, g, r, pte) && Harmless(m, g, r, pte)
    ensures RefOk(Set(m, r, pte), Linked(g, r, PageOf(pte)), q) && FlagsOk(Set(m, r, pte), q)
  {
    assert PageOk(m, g, PageOf(pte)) && RefOk(m, g, q) && FlagsOk(m, q) && PageOk(m, g, Target(m, q));
    if !q.Root? { EntryAfter(m, g, r, pte, q); }
  }

  lemma LinkPage(m: Mem, g: Owners, r: Ref, pte: nat, x: nat)
    requires CanLink(m, g, r, pte) && Harmless(m, g, r, pte)
    ensures PageOk(Set(m, r, pte), Linked(g, r, PageOf(pte)), x)
  {
    var h := Linked(g, r, PageOf(pte));
    assert PageOk(m, g, x) && PageOk(m, g, PageOf(pte));
    if x in h.own && !h.own[x].Root? { EntryAfter(m, g, r, pte, h.own[x]); }
  }

  lemma LinkKeeps(m: Mem, g: Owners, r: Ref, pte: nat)
    requires CanLink(m, g, r, pte)
    ensures Harmless(m, g, r, pte) && VmOk(Set(m, r, pte), Linked(g, r, PageOf(pte)))
  {
    var u, h := Set(m, r, pte), Linked(g, r, PageOf(pte));
    assert PageOk(m, g, PageOf(pte));
    forall q: Ref ensures RefOk(u, h, q) && FlagsOk(u, q) { LinkRef(m, g, r, pte, q); }
    forall x: nat ensures PageOk(u, h, x) { LinkPage(m, g, r, pte, x); }
  }

  /** The page of an entry that is cleared becomes spare, if it is of the pool. */
  function Unlinked(g: Owners, p: nat): Owners {
    if p in g.pool then g.(own := g.own - {p}, spare := g.spare + {p}) else g
  }

  ghost predicate CanClear(m: Mem, g: Owners, r: Ref) {
    VmOk(m, g) && HasSlot(m, r) && IsValid(Entry(m, r)) && (r.Leaf? || Blank(m, PageOf(Entry(m, r))))
  }

  lemma ClearRef(m: Mem, g: Owners, r: Ref, q: Ref)
    requires CanClear(m, g, r) && Harmless(m, g, r, 0)
    ensures RefOk(Set(m, r, 0), Unlinked(g, PageOf(Entry(m, r))), q) && FlagsOk(Set(m, r, 0), q)
  {
    assert RefOk(m, g, r) && FlagsOk(m, r) && PageOk(m, g, PageOf(Entry(m, r))) && RefOk(m, g, q) && FlagsOk(m, q);
    if !q.Root? { EntryAfter(m, g, r, 0, q); }
  }

  lemma ClearPage(m: Mem, g: Owners, r: Ref, x: nat)
    requires CanClear(m, g, r) && Harmless(m, g, r, 0)
    ensures PageOk(Set(m, r, 0), Unlinked(g, PageOf(Entry(m, r))), x)
  {
    var h := Unlinked(g, PageOf(Entry(m, r)));
    assert RefOk(m, g, r) && FlagsOk(m, r) && PageOk(m, g, PageOf(Entry(m, r))) && PageOk(m, g, x);
    if x in h.own && !h.own[x].Root? { EntryAfter(m, g, r, 0, h.own[x]); }
  }

  lemma ClearKeeps(m: Mem, g: Owners, r: Ref)
    requires CanClear(m, g, r)
    ensures Harmless(m, g, r, 0) && VmOk(Set(m, r, 0), Unlinked(g, PageOf(Entry(m, r))))
  {
    var u, h := Set(m, r, 0), Unlinked(g, PageOf(Entry(m, r)));
    assert PageOk(m, g, 0);
    forall q: Ref ensures RefOk(u, h, q) && FlagsOk(u, q) { ClearRef(m, g, r, q); }
    forall x: nat ensures PageOk(u, h, x) { ClearPage(m, g, r, x); }
  }

  // ---------------------------------------------------------------- new table pages

  function Zeroed(m: Mem, p: nat): Mem { m.(tables := m.tables[p := seq(512, _ => 0)]) }

  lemma TablesOwned(m: Mem, g: Owners, q: Ref)
    requires VmOk(m, g) && !q.Root? && Parent(m, q) != 0
    ensures Parent(m, q) in g.own && g.own[Parent(m, q)] == ParentRef(q) && Parent(m, q) in m.tables
  {
    assert RefOk(m, g, ParentRef(q)) && PageOk(m, g, Parent(m, q));
  }

  lemma ZeroEntry(m: Mem, g: Owners, p: nat, q: Ref)
    requires VmOk(m, g) && p !in g.own && !q.Root?
    ensures Entry(Zeroed(m, p), q) == Entry(m, q) && Target(Zeroed(m, p), q) == Target(m, q)
    decreases if q.Leaf? then 2 else if q.Low? then 1 else 0
  {
    var u := Zeroed(m, p);
    if q.Mid? {
      if Parent(m, q) != 0 { TablesOwned(m, g, q); }
    } else if q.Low? {
      ZeroEntry(m, g, p, Mid(q.id, q.i2));
      if Parent(m, q) != 0 { TablesOwned(m, g, q); }
    } else {
      ZeroEntry(m, g, p, Low(q.id, I2(q.v), I1(q.v)));
      if Parent(m, q) != 0 { TablesOwned(m, g, q); }
    }
  }

  lemma ZeroKeeps(m: Mem, g: Owners, p: nat)
    requires VmOk(m, g) && p in g.spare
    ensures VmOk(Zeroed(m, p), g)
  {
    var u := Zeroed(m, p);
    assert PageOk(m, g, p);
    forall q: Ref ensures RefOk(u, g, q) && FlagsOk(u, q) && Target(u, q) == Target(m, q) {
      assert RefOk(m, g, q) && FlagsOk(m, q);
      if !q.Root? { ZeroEntry(m, g, p, q); }
    }
    forall x: nat ensures PageOk(u, g, x) { assert PageOk(m, g, x); }
  }

  /** The flat maps, the bytes of owned pages and the leaf owners are as before; only table pages were added. */
  ghost predicate OnlyTables(m: Mem, g: Owners, u: Mem, h: Owners) {
    && VmOk(u, h) && u.roots == m.roots && h.pool == g.pool && h.spare == g.spare
    && (forall id: nat, v: nat :: PteAt(u, id, v) == PteAt(m, id, v))
    && (forall p: nat :: p in g.own ==> p in h.own && h.own[p] == g.own[p])
    && (forall p: nat :: p in h.own && p !in g.own ==> !h.own[p].Leaf?)
    && (forall p: nat :: p in m.data && (p in g.own || p in g.spare) ==> p in u.data && u.data[p] == m.data[p])
  }

  lemma OnlyTablesTwice(m: Mem, g: Owners, u: Mem, h: Owners, w: Mem, k: Owners)
    requires OnlyTables(m, g, u, h) && OnlyTables(u, h, w, k)
    ensures OnlyTables(m, g, w, k)
  {
  }

  /** kalloc, memset and the write of the parent's entry, as walk does them. */
  function Grown(m: Mem, r: Ref): Mem
    requires |m.free| > 0 && HasSlot(Zeroed(Taken(m), m.free[0]), r)
  {
    Set(Zeroed(Taken(m), m.free[0]), r, Pte(m.free[0], PTE_V))
  }

  lemma GrowKeeps(m: Mem, g: Owners, r: Ref)
    requires VmOk(m, g) && |m.free| > 0 && HasSlot(m, r) && !r.Leaf? && !IsValid(Entry(m, r))
    ensures HasSlot(Zeroed(Taken(m), m.free[0]), r)
    ensures OnlyTables(m, g, Grown(m, r), g.(own := g.own[m.free[0] := r])) && Target(Grown(m, r), r) == m.free[0]
  {
    var p := m.free[0];
    var g1 := g.(spare := g.spare + {p});
    TakeKeeps(m, g);
    var m1, m2 := Taken(m), Zeroed(Taken(m), p);
    assert PageOk(m1, g1, p) && PageOk(m, g, p);
    ZeroKeeps(m1, g1, p);
    ZeroEntry(m1, g1, p, r);
    TablesOwned(m1, g1, r);
    ZeroParent(m1, g1, p, r);
    PteRoundTrip(p, PTE_V);
    LinkKeeps(m2, g1, r, Pte(p, PTE_V));
    EntryAfter(m2, g1, r, Pte(p, PTE_V), r);
    assert Linked(g1, r, p) == g.(own := g.own[p := r]);
    forall id: nat, v: nat ensures PteAt(Grown(m, r), id, v) == PteAt(m, id, v) { GrownPte(m, g, r, id, v); }
  }

  lemma GrownPte(m: Mem, g: Owners, r: Ref, id: nat, v: nat)
    requires VmOk(m, g) && |m.free| > 0
    requires var m2 := Zeroed(Taken(m), m.free[0]);
      Harmless(m2, g.(spare := g.spare + {m.free[0]}), r, Pte(m.free[0], PTE_V)) && !r.Leaf?
    ensures PteAt(Grown(m, r), id, v) == PteAt(m, id, v)
  {
    var p := m.free[0];
    var g1 := g.(spare := g.spare + {p});
    TakeKeeps(m, g);
    PteAfter(Zeroed(Taken(m), p), g1, r, Pte(p, PTE_V), id, v);
    ZeroEntry(Taken(m), g1, p, Leaf(id, v));
    assert PteAt(Taken(m), id, v) == PteAt(m, id, v);
  }

  lemma ZeroParent(m: Mem, g: Owners, p: nat, r: Ref)
    requires VmOk(m, g) && p !in g.own && !r.Root? && Parent(m, r) != 0
    ensures Parent(Zeroed(m, p), r) == Parent(m, r)
  {
    if !r.Mid? { ZeroEntry(m, g, p, ParentRef(r)); }
  }

  // ---------------------------------------------------------------- walk

  /** The table of the given level on the way to page v. */
  function TableRef(id: nat, v: nat, level: nat): Ref {
    if level == 2 then Root(id) else if level == 1 then Mid(id, I2(v)) else Low(id, I2(v), I1(v))
  }

  function Px(level: nat, v: nat): nat { if level == 2 then I2(v) else if level == 1 then I1(v) else I0(v) }

  datatype Walked = WalkPanic | NoTable | At(table: nat)

  /** One turn of the loop in walk, from the table pt at level + 1 down to the table q below it; 0 when there is
      none and none can be made. */
  method Descend(m0: Mem, ghost g0: Owners, pt: nat, i: nat, ghost q: Ref, alloc: bool)
    returns (m: Mem, ghost g: Owners, t: nat)
    requires VmOk(m0, g0) && !q.Root? && !q.Leaf? && Parent(m0, q) == pt != 0 && Index(q) == i < 512
    ensures OnlyTables(m0, g0, m, g) && (!alloc ==> m == m0 && g == g0)
    ensures t != 0 ==> Target(m, q) == t
    ensures t == 0 ==> m == m0 && g == g0 && Target(m, q) == 0 && (alloc ==> |m.free| == 0)
  {
    TablesOwned(m0, g0, q);
    assert RefOk(m0, g0, q) && FlagsOk(m0, q);
    var pte := m0.tables[pt][i];
    assert pte == Entry(m0, q);
    if IsValid(pte) { return m0, g0, PageOf(pte); }
    if !alloc || |m0.free| == 0 { return m0, g0, 0; }
    var p := m0.free[0];
    GrowKeeps(m0, g0, q);
    assert PageOk(m0, g0, p) by { assert p in m0.free; }
    TakeKeeps(m0, g0);
    ZeroParent(Taken(m0), g0.(spare := g0.spare + {p}), p, q);
    m := Zeroed(Taken(m0), p);
    m := m.(tables := m.tables[pt := m.tables[pt][i := Pte(p, PTE_V)]]);
    g, t := g0.(own := g0.own[p := q]), p;
  }

  /** walk: the table that holds the leaf entry of va. Growing the tree changes no translation; without a
      table, alloc means that no page was left, and no alloc means that va is not mapped. */
  method Walk(m0: Mem, ghost g0: Owners, id: nat, va: nat, alloc: bool) returns (m: Mem, ghost g: Owners, r: Walked)
    requires VmOk(m0, g0) && id in m0.roots
    ensures r.WalkPanic? <==> va >= MAXVA
    ensures OnlyTables(m0, g0, m, g) && (r.WalkPanic? || !alloc ==> m == m0 && g == g0)
    ensures r.At? ==> r.table == LowTable(m, id, I2(va / PGSIZE), I1(va / PGSIZE)) != 0
    ensures r.NoTable? ==> PteAt(m, id, va / PGSIZE) == 0 && (alloc ==> |m.free| == 0)
  {
    m, g := m0, g0;
    if va >= MAXVA { return m, g, WalkPanic; }
    var v, pt, level := va / PGSIZE, id, 2;
    while level > 0
      invariant 0 <= level <= 2 && OnlyTables(m0, g0, m, g) && (!alloc ==> m == m0 && g == g0)
      invariant Target(m, TableRef(id, v, level)) == pt != 0
    {
      var u, h, t := Descend(m, g, pt, Px(level, v), TableRef(id, v, level - 1), alloc);
      OnlyTablesTwice(m0, g0, m, g, u, h);
      m, g, pt := u, h, t;
      if t == 0 { return m, g, NoTable; }
      level := level - 1;
    }
    r := At(pt);
  }
}
