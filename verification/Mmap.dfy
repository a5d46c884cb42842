/** Private memory-mapped regions of one process (kernel/sysfile.c sys_mmap and munmap, kernel/vm.c mapvpages,
    kernel/proc.c for the initial cur_max). */
module Mmap {
  import opened PageTable
  import opened UserVm
  import UserCopy

  const MAX_MMR: nat := 10
  const TRAPFRAME: nat := MAXVA - 2 * PGSIZE

  datatype Mmr = Mmr(valid: bool, addr: nat, length: nat)

  /** p->mmr and p->cur_max. */
  datatype Regions = Regions(mmr: seq<Mmr>, curMax: nat)

  function RoundDown(a: nat): nat { a / PGSIZE * PGSIZE }

  function RoundUp(a: nat): nat { (a + PGSIZE - 1) / PGSIZE * PGSIZE }

  predicate Inside(s: Regions, r: Mmr) {
    r.valid ==>
      r.addr % PGSIZE == 0 && r.length % PGSIZE == 0 && 0 < r.length && s.curMax <= r.addr &&
      r.addr + r.length <= TRAPFRAME
  }

  predicate Apart(q: Mmr, r: Mmr) { q.valid && r.valid ==> q.addr + q.length <= r.addr || r.addr + r.length <= q.addr }

  /** Valid regions are page-aligned, inside [cur_max, TRAPFRAME) and pairwise disjoint. */
  predicate RegionsOk(s: Regions) {
    && |s.mmr| == MAX_MMR && s.curMax % PGSIZE == 0 && s.curMax <= TRAPFRAME
    && (forall i :: 0 <= i < |s.mmr| ==> Inside(s, s.mmr[i]))
    && (forall i, j :: 0 <= i < j < |s.mmr| ==> Apart(s.mmr[i], s.mmr[j]))
  }

  /** The length mmap stores is the rounded length, so munmap with the same arguments can find the region. */
  lemma StoredLength(curMax: nat, length: nat)
    requires curMax % PGSIZE == 0 && 0 < length <= curMax
    ensures curMax - RoundDown(curMax - length) == RoundUp(length)
    ensures RoundDown(curMax - length) % PGSIZE == 0 && 0 < RoundUp(length) && RoundUp(length) % PGSIZE == 0
  {
    var k := curMax / PGSIZE;
    assert curMax == k * PGSIZE;
    var q := (length + PGSIZE - 1) / PGSIZE;
    assert (curMax - length) / PGSIZE == k - q;
  }

  function Added(s: Regions, i: nat, length: nat): Regions
    requires i < |s.mmr| && length <= s.curMax
  {
    var start := RoundDown(s.curMax - length);
    Regions(s.mmr[i := Mmr(true, start, s.curMax - start)], start)
  }

  function Removed(s: Regions, i: nat): Regions
    requires i < |s.mmr|
  {
    s.(mmr := s.mmr[i := s.mmr[i].(valid := false)])
  }

  lemma AddKeeps(s: Regions, i: nat, length: nat)
    requires RegionsOk(s) && i < MAX_MMR && !s.mmr[i].valid && 0 < length <= s.curMax
    ensures RegionsOk(Added(s, i, length)) &&
      Added(s, i, length).mmr[i] == Mmr(true, s.curMax - RoundUp(length), RoundUp(length))
  {
    StoredLength(s.curMax, length);
    var u := Added(s, i, length);
    forall j | 0 <= j < |u.mmr| ensures Inside(u, u.mmr[j]) { assert Inside(s, s.mmr[j]); }
    forall j, k | 0 <= j < k < |u.mmr| ensures Apart(u.mmr[j], u.mmr[k]) {
      assert Apart(s.mmr[j], s.mmr[k]) && Inside(s, s.mmr[j]) && Inside(s, s.mmr[k]);
    }
  }

  /** A region that could not be mapped: the slot is overwritten but stays invalid. */
  function Refused(s: Regions, i: nat, length: nat): Regions
    requires i < |s.mmr| && length <= s.curMax
  {
    var start := RoundDown(s.curMax - length);
    s.(mmr := s.mmr[i := Mmr(false, start, s.curMax - start)])
  }

  lemma RefuseKeeps(s: Regions, i: nat, length: nat)
    requires RegionsOk(s) && i < MAX_MMR && length <= s.curMax
    ensures RegionsOk(Refused(s, i, length))
  {
    var u := Refused(s, i, length);
    forall j | 0 <= j < |u.mmr| ensures Inside(u, u.mmr[j]) { assert Inside(s, s.mmr[j]); }
    forall j, k | 0 <= j < k < |u.mmr| ensures Apart(u.mmr[j], u.mmr[k]) { assert Apart(s.mmr[j], s.mmr[k]); }
  }

  lemma RemoveKeeps(s: Regions, i: nat)
    requires RegionsOk(s) && i < MAX_MMR
    ensures RegionsOk(Removed(s, i))
  {
    var u := Removed(s, i);
    forall j | 0 <= j < |u.mmr| ensures Inside(u, u.mmr[j]) { assert Inside(s, s.mmr[j]); }
    forall j, k | 0 <= j < k < |u.mmr| ensures Apart(u.mmr[j], u.mmr[k]) { assert Apart(s.mmr[j], s.mmr[k]); }
  }

  // ---------------------------------------------------------------- whole runs

  /** mmap of length bytes that gets slot i, mmap that finds slot i but no memory, and munmap(addr, length) that finds
      its region in slot i. */
  datatype Event = Add(i: nat, length: nat) | Refuse(i: nat, length: nat) | Remove(i: nat, addr: nat, length: nat)

  predicate Enabled(s: Regions, e: Event) {
    match e
    case Add(i, length) => i < |s.mmr| && !s.mmr[i].valid && 0 < length <= s.curMax
    case Refuse(i, length) => i < |s.mmr| && !s.mmr[i].valid && 0 < length <= s.curMax
    case Remove(i, addr, length) => i < |s.mmr| && Matches(s.mmr[i], addr, length)
  }

  function Apply(s: Regions, e: Event): Regions
    requires Enabled(s, e)
  {
    match e
    case Add(i, length) => Added(s, i, length)
    case Refuse(i, length) => Refused(s, i, length)
    case Remove(i, _, _) => Removed(s, i)
  }

  /** allocproc: no region yet, and all below the trapframe is free. */
  function NoRegions(): Regions { Regions(seq(MAX_MMR, _ => Mmr(false, 0, 0)), TRAPFRAME) }

  ghost predicate IsRun(ss: seq<Regions>, es: seq<Event>) {
    && |ss| == |es| + 1 && ss[0] == NoRegions()
    && forall i :: 0 <= i < |es| ==> Enabled(ss[i], es[i]) && ss[i + 1] == Apply(ss[i], es[i])
  }

  /** On every run of mmap and munmap with legal lengths the regions stay well formed. */
  lemma {:induction false} RunKeeps(ss: seq<Regions>, es: seq<Event>, k: nat)
    requires IsRun(ss, es) && k <= |es|
    ensures RegionsOk(ss[k])
  {
    if k == 0 {
    } else {
      RunKeeps(ss, es, k - 1);
      var s, e := ss[k - 1], es[k - 1];
      match e {
        case Add(i, length) => AddKeeps(s, i, length);
        case Refuse(i, length) => RefuseKeeps(s, i, length);
        case Remove(i, _, _) => RemoveKeeps(s, i);
      }
      assert ss[k - 1 + 1] == Apply(s, e);
    }
  }

  /** cur_max after the first k calls: every mmap took its rounded length off it. */
  ghost function Top(es: seq<Event>, k: nat): int
    requires k <= |es|
  {
    if k == 0 then TRAPFRAME else Top(es, k - 1) - if es[k - 1].Add? then RoundUp(es[k - 1].length) else 0
  }

  /** The regions mapped and not yet unmapped by the first k calls, as (address, length), read off the calls alone. */
  ghost function Outstanding(es: seq<Event>, k: nat): set<(int, int)>
    requires k <= |es|
  {
    if k == 0 then {} else After(Outstanding(es, k - 1), es[k - 1], Top(es, k - 1))
  }

  /** What one call makes of the regions o, with cur_max at top. */
  ghost function After(o: set<(int, int)>, e: Event, top: int): set<(int, int)> {
    match e
    case Add(_, length) => o + {(top - RoundUp(length), RoundUp(length))}
    case Refuse(_, _) => o
    case Remove(_, addr, length) => o - {(addr, RoundUp(length))}
  }

  /** The valid entries of the table are the regions o, each in one slot. */
  ghost predicate Holds(s: Regions, o: set<(int, int)>) {
    && (forall i :: 0 <= i < |s.mmr| && s.mmr[i].valid ==> (s.mmr[i].addr, s.mmr[i].length) in o)
    && (forall r :: r in o ==> exists i :: 0 <= i < |s.mmr| && HasRegion(s.mmr[i], r))
  }

  predicate OthersSame(a: seq<Mmr>, b: seq<Mmr>, i: int) {
    |a| == |b| && forall j :: 0 <= j < |a| && j != i ==> a[j] == b[j]
  }

  predicate HasRegion(x: Mmr, r: (int, int)) { x.valid && (x.addr, x.length) == r }

  lemma AddHolds(s: Regions, i: nat, length: nat, o: set<(int, int)>)
    requires RegionsOk(s) && Enabled(s, Add(i, length)) && Holds(s, o)
    ensures Apply(s, Add(i, length)).curMax == s.curMax - RoundUp(length)
    ensures Holds(Apply(s, Add(i, length)), o + {(s.curMax - RoundUp(length), RoundUp(length))})
  {
    AddKeeps(s, i, length);
    StoredLength(s.curMax, length);
    var u := Apply(s, Add(i, length));
    assert HasRegion(u.mmr[i], (s.curMax - RoundUp(length), RoundUp(length)));
    forall r | r in o ensures exists j :: 0 <= j < |u.mmr| && HasRegion(u.mmr[j], r) {
      var j :| 0 <= j < |s.mmr| && HasRegion(s.mmr[j], r);
      assert HasRegion(u.mmr[j], r);
    }
  }

  lemma RemoveHolds(s: Regions, i: nat, addr: nat, length: nat, o: set<(int, int)>)
    requires RegionsOk(s) && Enabled(s, Remove(i, addr, length)) && Holds(s, o)
    ensures Apply(s, Remove(i, addr, length)).curMax == s.curMax
    ensures Holds(Apply(s, Remove(i, addr, length)), o - {(addr, RoundUp(length))})
  {
    OnlyMatch(s, i, addr, length);
    var u := Apply(s, Remove(i, addr, length));
    forall r | r in o - {(addr, RoundUp(length))} ensures exists j :: 0 <= j < |u.mmr| && HasRegion(u.mmr[j], r) {
      var j :| 0 <= j < |s.mmr| && HasRegion(s.mmr[j], r);
      assert HasRegion(u.mmr[j], r);
    }
    forall j | 0 <= j < |u.mmr| && u.mmr[j].valid
      ensures (u.mmr[j].addr, u.mmr[j].length) in o - {(addr, RoundUp(length))}
    {
      assert !Matches(s.mmr[j], addr, length) || j == i;
    }
  }

  lemma RefuseHolds(s: Regions, i: nat, length: nat, o: set<(int, int)>)
    requires Enabled(s, Refuse(i, length)) && Holds(s, o)
    ensures Apply(s, Refuse(i, length)).curMax == s.curMax && Holds(Apply(s, Refuse(i, length)), o)
  {
    var u := Apply(s, Refuse(i, length));
    forall r | r in o ensures exists j :: 0 <= j < |u.mmr| && HasRegion(u.mmr[j], r) {
      var j :| 0 <= j < |s.mmr| && HasRegion(s.mmr[j], r);
      assert HasRegion(u.mmr[j], r);
    }
  }

  lemma StepHolds(s: Regions, e: Event, o: set<(int, int)>)
    requires RegionsOk(s) && Enabled(s, e) && Holds(s, o)
    ensures Apply(s, e).curMax == s.curMax - if e.Add? then RoundUp(e.length) else 0
    ensures Holds(Apply(s, e), After(o, e, s.curMax))
  {
    match e {
      case Add(i, length) => AddHolds(s, i, length, o);
      case Refuse(i, length) => RefuseHolds(s, i, length, o);
      case Remove(i, addr, length) => RemoveHolds(s, i, addr, length, o);
    }
  }

  /** On every run the valid entries are exactly the regions that were mapped and not yet unmapped. */
  lemma {:induction false} RegionsOutstanding(ss: seq<Regions>, es: seq<Event>, k: nat)
    requires IsRun(ss, es) && k <= |es|
    ensures ss[k].curMax == Top(es, k) && Holds(ss[k], Outstanding(es, k))
  {
    if k == 0 {
    } else {
      RegionsOutstanding(ss, es, k - 1);
      RunKeeps(ss, es, k - 1);
      assert ss[k - 1 + 1] == Apply(ss[k - 1], es[k - 1]);
      StepHolds(ss[k - 1], es[k - 1], Outstanding(es, k - 1));
    }
  }

  // ---------------------------------------------------------------- the page table

  /** mapvpages: tables for the pages first to last; no translation changes. */
  method MapvPages(m0: Mem, ghost g0: Owners, id: nat, first: nat, last: nat)
    returns (m: Mem, ghost g: Owners, r: Outcome)
    requires VmOk(m0, g0) && id in m0.roots && first <= last
    ensures OnlyTables(m0, g0, m, g)
    ensures r.Panicked? ==> exists v: nat :: first <= v <= last && (v * PGSIZE >= MAXVA || IsValid(PteAt(m0, id, v)))
    ensures r.Failed? ==> |m.free| == 0
    ensures r.Done? ==> forall v: nat :: first <= v <= last ==>
      LowTable(m, id, I2(v), I1(v)) != 0 && !IsValid(PteAt(m0, id, v))
  {
    m, g := m0, g0;
    var a := first;
    while true
      invariant first <= a <= last && OnlyTables(m0, g0, m, g)
      invariant forall v: nat :: first <= v < a ==> LowTable(m, id, I2(v), I1(v)) != 0 && !IsValid(PteAt(m0, id, v))
      decreases last - a
    {
      var u, h, w := Walk(m, g, id, a * PGSIZE, true);
      OnlyTablesTwice(m0, g0, m, g, u, h);
      LowTablesStay(m, g, u, h, id);
      m, g := u, h;
      match w {
        case WalkPanic => return m, g, Panicked;
        case NoTable => return m, g, Failed;
        case At(t) =>
          TablesOwned(m, g, Leaf(id, a));
          if IsValid(m.tables[t][I0(a)]) {
            assert IsValid(PteAt(m0, id, a));
            return m, g, Panicked;
          }
      }
      if a == last { return m, g, Done; }
      a := a + 1;
    }
  }

  /** A table that is there stays. */
  lemma LowTablesStay(m: Mem, g: Owners, u: Mem, h: Owners, id: nat)
    requires VmOk(m, g) && OnlyTables(m, g, u, h)
    ensures forall v: nat :: LowTable(m, id, I2(v), I1(v)) != 0 ==> LowTable(u, id, I2(v), I1(v)) != 0
  {
    forall v: nat | LowTable(m, id, I2(v), I1(v)) != 0 ensures LowTable(u, id, I2(v), I1(v)) != 0 {
      var r := Low(id, I2(v), I1(v));
      assert RefOk(m, g, r);
      assert PageOk(u, h, Target(m, r)) && PageOk(m, g, Target(m, r));
    }
  }

  ghost predicate PtesSwept(m: Mem, u: Mem, id: nat, a: nat, k: nat) {
    forall s: nat, v: nat ::
      PteAt(u, s, v) == if s == id && a <= v < a + k && UserCopy.UserPage(m, id, v) != 0 then 0 else PteAt(m, s, v)
  }

  ghost predicate OwnersSwept(m: Mem, g: Owners, u: Mem, h: Owners) {
    && h.pool == g.pool && h.spare == g.spare
    && (forall x: nat :: x in h.own ==> x in g.own && h.own[x] == g.own[x])
    && (forall x: nat :: x in u.free <==> x in m.free || (x in g.own && x !in h.own))
    && (forall x: nat :: x in h.own && x in m.data ==> x in u.data && u.data[x] == m.data[x])
  }

  /** No page a, ..., a + k - 1 is mapped for the user any more, no other translation has changed, and the pages that
      lost their mapping are free; pages that kept it keep their bytes. */
  ghost predicate SweptBody(m: Mem, g: Owners, u: Mem, h: Owners, id: nat, a: nat, k: nat) {
    VmOk(u, h) && u.roots == m.roots && PtesSwept(m, u, id, a, k) && OwnersSwept(m, g, u, h)
  }

  /** The same, kept folded until the key is named. */
  ghost predicate Swept(m: Mem, g: Owners, u: Mem, h: Owners, id: nat, a: nat, k: nat) {
    forall z: int {:trigger Key(z)} :: z == 0 ==> SweptBody(m, g, u, h, id, a, k)
  }

  lemma SweptNone(m: Mem, g: Owners, id: nat, a: nat)
    requires VmOk(m, g)
    ensures Swept(m, g, m, g, id, a, 0)
  {
    assert SweptBody(m, g, m, g, id, a, 0);
  }

  ghost predicate UserInPool(m: Mem, g: Owners, id: nat) {
    forall v: nat :: UserCopy.UserPage(m, id, v) != 0 ==> UserCopy.UserPage(m, id, v) in g.pool
  }

  lemma PtesSweptMore(m: Mem, g: Owners, u: Mem, h: Owners, w: Mem, k: Owners, id: nat, a: nat, n: nat)
    requires PtesSwept(m, u, id, a, n) && UnmappedBody(u, h, w, k, id, a + n, 1, true) &&
      UserCopy.UserPage(m, id, a + n) != 0
    ensures PtesSwept(m, w, id, a, n + 1)
  {
    forall s: nat, v: nat
      ensures PteAt(w, s, v) == if s == id && a <= v < a + (n + 1) &&
        UserCopy.UserPage(m, id, v) != 0 then 0 else PteAt(m, s, v)
    {
      assert PteAt(w, s, v) == if s == id && v == a + n then 0 else PteAt(u, s, v);
    }
  }

  lemma OwnersSweptMore(m: Mem, g: Owners, u: Mem, h: Owners, w: Mem, k: Owners, id: nat, v: nat)
    requires VmOk(u, h) && OwnersSwept(m, g, u, h) && UnmappedBody(u, h, w, k, id, v, 1, true)
    ensures OwnersSwept(m, g, w, k)
  {
    forall x: nat | x in h.own ensures x !in u.free { assert PageOk(u, h, x); }
  }

  lemma SweptMore(m: Mem, g: Owners, u: Mem, h: Owners, w: Mem, k: Owners, id: nat, a: nat, n: nat)
    requires Swept(m, g, u, h, id, a, n)
    requires Unmapped(u, h, w, k, id, a + n, 1, true) && UserCopy.UserPage(m, id, a + n) != 0
    ensures Swept(m, g, w, k, id, a, n + 1)
  {
    assert Key(0) == 0;
    PtesSweptMore(m, g, u, h, w, k, id, a, n);
    OwnersSweptMore(m, g, u, h, w, k, id, a + n);
    assert SweptBody(m, g, w, k, id, a, n + 1);
  }

  lemma SweptAt(m: Mem, g: Owners, u: Mem, h: Owners, id: nat, a: nat, k: nat)
    requires Swept(m, g, u, h, id, a, k) && id in m.roots && UserInPool(m, g, id)
    ensures VmOk(u, h) && id in u.roots && UserInPool(u, h, id)
    ensures UserCopy.UserPage(u, id, a + k) == UserCopy.UserPage(m, id, a + k) &&
      PteAt(u, id, a + k) == PteAt(m, id, a + k)
  {
    assert Key(0) == 0;
    forall v: nat | UserCopy.UserPage(u, id, v) != 0
      ensures UserCopy.UserPage(u, id, v) == UserCopy.UserPage(m, id, v) {
      assert PteAt(u, id, v) != 0;
    }
  }

  lemma SweptSkip(m: Mem, g: Owners, u: Mem, h: Owners, id: nat, a: nat, k: nat)
    requires Swept(m, g, u, h, id, a, k) && UserCopy.UserPage(m, id, a + k) == 0
    ensures Swept(m, g, u, h, id, a, k + 1)
  {
    assert Key(0) == 0;
    assert SweptBody(m, g, u, h, id, a, k + 1);
  }

  /** One turn of the loop of munmap. */
  method SweepPage(ghost m0: Mem, ghost g0: Owners, m1: Mem, ghost g1: Owners, id: nat, a: nat, k: nat)
    returns (m: Mem, ghost g: Owners, panic: bool)
    requires VmOk(m0, g0) && id in m0.roots && UserInPool(m0, g0, id) && Swept(m0, g0, m1, g1, id, a, k)
    ensures !panic && Swept(m0, g0, m, g, id, a, k + 1)
  {
    SweptAt(m0, g0, m1, g1, id, a, k);
    var p := UserCopy.Walkaddr(m1, g1, id, (a + k) * PGSIZE);
    if p == 0 {
      SweptSkip(m0, g0, m1, g1, id, a, k);
      return m1, g1, false;
    }
    m, g, panic := UnmapPage(m1, g1, id, a + k, true);
    SweptMore(m0, g0, m1, g1, m, g, id, a, k);
  }

  /** The loop of munmap over the pages of a private region. */
  method Sweep(m0: Mem, ghost g0: Owners, id: nat, a: nat, n: nat) returns (m: Mem, ghost g: Owners, panic: bool)
    requires VmOk(m0, g0) && id in m0.roots && UserInPool(m0, g0, id)
    ensures !panic && Swept(m0, g0, m, g, id, a, n)
  {
    m, g, panic := m0, g0, false;
    SweptNone(m0, g0, id, a);
    var k: nat := 0;
    while k < n
      invariant k <= n && !panic && Swept(m0, g0, m, g, id, a, k)
    {
      m, g, panic := SweepPage(m0, g0, m, g, id, a, k);
      k := k + 1;
    }
  }

  // ---------------------------------------------------------------- the system calls

  lemma StillUser(m: Mem, g: Owners, u: Mem, h: Owners, id: nat)
    requires OnlyTables(m, g, u, h) && id in m.roots && UserInPool(m, g, id)
    ensures id in u.roots && UserInPool(u, h, id)
  {
    forall v: nat ensures UserCopy.UserPage(u, id, v) ==
      UserCopy.UserPage(m, id, v) { assert PteAt(u, id, v) == PteAt(m, id, v); }
  }

  /** The search for a free slot. */
  method FreeSlot(mmr: seq<Mmr>) returns (k: nat)
    ensures k <= |mmr| && (k < |mmr| ==> !mmr[k].valid) && forall i :: 0 <= i < k ==> mmr[i].valid
  {
    k := 0;
    while k < |mmr| && mmr[k].valid
      invariant k <= |mmr| && forall i :: 0 <= i < k ==> mmr[i].valid
    {
      k := k + 1;
    }
  }

  /** The mapping part of sys_mmap. */
  method MapTables(m0: Mem, ghost g0: Owners, id: nat, s: Regions, length: nat)
    returns (m: Mem, ghost g: Owners, r: Outcome, start: nat)
    requires VmOk(m0, g0) && id in m0.roots && UserInPool(m0, g0, id) && RegionsOk(s) && 0 < length <= s.curMax
    ensures OnlyTables(m0, g0, m, g) && id in m.roots && UserInPool(m, g, id) && start == RoundDown(s.curMax - length)
    ensures r.Panicked? ==> exists v: nat :: start / PGSIZE <= v < s.curMax / PGSIZE && IsValid(PteAt(m0, id, v))
    ensures r.Failed? ==> |m.free| == 0
    ensures r.Done? ==> forall v: nat :: start / PGSIZE <= v < s.curMax / PGSIZE ==> !IsValid(PteAt(m0, id, v))
  {
    StoredLength(s.curMax, length);
    start := RoundDown(s.curMax - length);
    m, g, r := MapvPages(m0, g0, id, start / PGSIZE, (s.curMax - 1) / PGSIZE);
    StillUser(m0, g0, m, g, id);
    assert (s.curMax - 1) / PGSIZE == s.curMax / PGSIZE - 1;
  }

  class Process {
    const id: nat  // its page table
    var s: Regions
    var m: Mem
    ghost var g: Owners

    ghost predicate Valid()
      reads this
    {
      RegionsOk(s) && VmOk(m, g) && id in m.roots && UserInPool(m, g, id)
    }

    constructor (id: nat, m: Mem, ghost g: Owners)
      requires VmOk(m, g) && id in m.roots && UserInPool(m, g, id)
      ensures Valid() && s == NoRegions() && this.id == id && this.m == m && this.g == g
    {
      this.id, this.m, this.g := id, m, g;
      s := NoRegions();
    }

    /** sys_mmap of a private region: -1 when no slot or no table page is left; else the region below cur_max. The
        page table gets tables but no translation. A page of the range that is mapped already is a panic. */
    method MapRegion(length: nat) returns (ret: int, panic: bool, ghost i: nat)
      requires Valid() && 0 < length <= s.curMax
      modifies this
      ensures Valid() && OnlyTables(old(m), old(g), m, g)
      ensures panic ==> exists v: nat ::
        RoundDown(old(s).curMax - length) / PGSIZE <= v < old(s).curMax / PGSIZE && IsValid(PteAt(old(m), id, v))
      ensures !panic && ret != -1 ==>
        && i < MAX_MMR && !old(s).mmr[i].valid && (forall j :: 0 <= j < i ==> old(s).mmr[j].valid)
        && ret == s.curMax == old(s).curMax - RoundUp(length)
        && s.mmr == old(s).mmr[i := Mmr(true, ret, RoundUp(length))] && s == Apply(old(s), Add(i, length))
      ensures !panic && ret != -1 ==>
        forall v: nat :: s.curMax / PGSIZE <= v < old(s).curMax / PGSIZE ==> !IsValid(PteAt(old(m), id, v))
      ensures !panic && ret == -1 ==>
        || (s == old(s) && forall k :: 0 <= k < MAX_MMR ==> s.mmr[k].valid)
        || (|m.free| == 0 && i < MAX_MMR && !old(s).mmr[i].valid && s == Apply(old(s), Refuse(i, length)) &&
            s.curMax == old(s).curMax && !s.mmr[i].valid && OthersSame(old(s).mmr, s.mmr, i))
    {
      panic := false;
      var k := FreeSlot(s.mmr);
      i := k;
      if k == MAX_MMR {
        OnlyTablesSelf(m, g);
        return -1, false, i;
      }
      AddKeeps(s, k, length);
      StoredLength(s.curMax, length);
      RefuseKeeps(s, k, length);
      var u, h, r, start := MapTables(m, g, id, s, length);
      m, g := u, h;
      if r.Panicked? { return -1, true, i; }
      if r.Failed? {
        s := Refused(s, k, length);
        return -1, false, i;
      }
      s := Added(s, k, length);
      ret := start;
    }

    /** munmap of a private region: with the arguments of the mmap that made it, exactly that region goes, and none of
        its pages is mapped for the user afterwards; -1 when there is no such region. */
    method UnmapRegion(addr: nat, length: nat) returns (ret: int, panic: bool)
      requires Valid()
      modifies this
      ensures !panic && Valid()
      ensures ret == -1 <==> forall i :: 0 <= i < MAX_MMR ==> !Matches(old(s).mmr[i], addr, length)
      ensures ret == -1 ==> s == old(s) && m == old(m)
      ensures forall i :: 0 <= i < MAX_MMR && Matches(old(s).mmr[i], addr, length) ==>
        && s == Apply(old(s), Remove(i, addr, length)) && s.curMax == old(s).curMax && |s.mmr| == |old(s).mmr|
        && OthersSame(old(s).mmr, s.mmr, i)
        && Swept(old(m), old(g), m, g, id, addr / PGSIZE, RoundUp(length) / PGSIZE)
      ensures forall j :: 0 <= j < MAX_MMR ==> !Matches(s.mmr[j], addr, length)
    {
      panic := false;
      var k := 0;
      while k < MAX_MMR && !Matches(s.mmr[k], addr, length)
        invariant 0 <= k <= MAX_MMR && forall i :: 0 <= i < k ==> !Matches(s.mmr[i], addr, length)
      {
        k := k + 1;
      }
      if k == MAX_MMR { return -1, false; }
      OnlyMatch(s, k, addr, length);
      RemoveKeeps(s, k);
      var u, h, p := Sweep(m, g, id, addr / PGSIZE, s.mmr[k].length / PGSIZE);
      SweptAt(m, g, u, h, id, addr / PGSIZE, s.mmr[k].length / PGSIZE);
      s := Removed(s, k);
      m, g, panic := u, h, p;
      ret := 0;
    }
  }

  predicate Matches(r: Mmr, addr: nat, length: nat) { r.valid && r.addr == addr && r.length == RoundUp(length) }

  /** The arguments find one region at most. */
  lemma OnlyMatch(s: Regions, k: nat, addr: nat, length: nat)
    requires RegionsOk(s) && k < MAX_MMR && Matches(s.mmr[k], addr, length)
    ensures forall i :: 0 <= i < MAX_MMR && Matches(s.mmr[i], addr, length) ==> i == k
  {
    forall i | 0 <= i < MAX_MMR && Matches(s.mmr[i], addr, length) ensures i == k {
      assert Inside(s, s.mmr[i]) && Inside(s, s.mmr[k]);
      assert i < k ==> Apart(s.mmr[i], s.mmr[k]);
      assert k < i ==> Apart(s.mmr[k], s.mmr[i]);
    }
  }

  lemma OnlyTablesSelf(m: Mem, g: Owners)
    requires VmOk(m, g)
    ensures OnlyTables(m, g, m, g)
  {
  }
}
