/** The virtio disk queue (kernel/virtio_disk.c; sections 2.6 and 5.2 of virtio 1.1): driver, interrupt
    handler and a lawful device that completes requests in any order. Every step holds vdisk_lock or is
    the device's. */
module Virtio {
  import opened Basics

  const NUM: nat := 8
  const WRAP: nat := 0x1_0000     // ring indices are uint16
  const WORD: nat := 0x1_0000_0000
  const BSIZE: nat := 1024
  const NEXT: nat := 1
  const WRITE: nat := 2
  const BUSY: nat := 0xff

  /** What a descriptor points at: a request header, a buffer's data, a status byte. */
  datatype Addr = Null | OpAt(op: nat) | DataOf(buf: nat) | StatusAt(slot: nat)

  datatype Desc = Desc(addr: Addr, len: nat, flags: nat, next: nat)

  datatype Op = Op(write: bool, sector: nat)

  datatype Info = Info(b: Option<nat>, status: nat)

  datatype Table = Table(free: seq<bool>, desc: seq<Desc>, ops: seq<Op>, info: seq<Info>)

  /** took is the device's position in avail, seen is disk.used_idx. */
  datatype Rings = Rings(avail: seq<nat>, availIdx: nat, took: nat, used: seq<nat>, usedIdx: nat, seen: nat)

  /** One call of virtio_disk_rw by p, with its descriptors. */
  datatype Request = Request(p: nat, b: nat, blockno: nat, write: bool, h: nat, d1: nat, d2: nat)

  /** Where a request is; k is its place in the order of completion. */
  datatype Stage = Queued | Taken | Used(k: nat) | Handled(k: nat) | Returned(k: nat)

  /** The history: every request ever submitted in order, how far the device has taken them, the numbers of
      the completed ones in order, how many of those the interrupt handler has seen, the request that holds
      each descriptor, and the transfer the device made for each completion. */
  datatype History = History(reqs: seq<Request>, stage: seq<Stage>, taken: nat, fin: seq<nat>, handled: nat,
                             own: seq<int>, moved: seq<Transfer>)

  datatype Transfer = Transfer(b: nat, sector: nat, write: bool)

  datatype Proc =
    | Idle
    | Wanting(b: nat, blockno: nat, write: bool, short: bool)  // short: asleep on disk.free
    | Waiting(j: nat, buf: nat, h: nat, asleep: bool)          // asleep: on the buffer

  datatype State = State(t: Table, r: Rings, g: History, procs: seq<Proc>, busy: set<nat>, pend: set<nat>,
    panicked: bool)

  // ---------------------------------------------------------------- descriptors and requests

  const ZERO := Desc(Null, 0, 0, 0)

  /** blockno * (BSIZE / 512) in 32-bit arithmetic. */
  function Sector(blockno: nat): nat { blockno * (BSIZE / 512) % WORD }

  predicate Slots(q: Request) {
    && q.h < NUM && q.d1 < NUM && q.d2 < NUM
    && q.h != q.d1 && q.h != q.d2 && q.d1 != q.d2
  }

  predicate TableSized(t: Table) { |t.free| == |t.desc| == |t.ops| == |t.info| == NUM }

  function HeadDesc(q: Request): Desc { Desc(OpAt(q.h), 16, NEXT, q.d1) }

  function DataDesc(q: Request): Desc { Desc(DataOf(q.b), BSIZE, (if q.write then 0 else WRITE) + NEXT, q.d2) }

  function StatusDesc(q: Request): Desc { Desc(StatusAt(q.h), 1, WRITE, 0) }

  function Formatted(t: Table, q: Request): Table
    requires TableSized(t) && Slots(q)
  {
    Table(t.free[q.h := false][q.d1 := false][q.d2 := false],
          t.desc[q.h := HeadDesc(q)][q.d1 := DataDesc(q)][q.d2 := StatusDesc(q)],
          t.ops[q.h := Op(q.write, Sector(q.blockno))],
          t.info[q.h := Info(Some(q.b), BUSY)])
  }

  function Freed(t: Table, q: Request): Table
    requires TableSized(t) && Slots(q)
  {
    Table(t.free[q.h := true][q.d1 := true][q.d2 := true],
          t.desc[q.h := ZERO][q.d1 := ZERO][q.d2 := ZERO],
          t.ops,
          t.info[q.h := t.info[q.h].(b := None)])
  }

  /** The device reading the chain that starts at h: the transfer it asks for and where its status goes. */
  function Decode(t: Table, h: nat): Option<(Transfer, nat)>
    requires TableSized(t)
  {
    if h >= NUM then None else
    var a := t.desc[h];
    if !a.addr.OpAt? || a.addr.op >= NUM || a.flags != NEXT || a.next >= NUM then None else
    var d := t.desc[a.next];
    if !d.addr.DataOf? || d.flags % 2 != NEXT || d.next >= NUM then None else
    var s := t.desc[d.next];
    if !s.addr.StatusAt? || s.addr.slot >= NUM || s.flags != WRITE then None else
    var op := t.ops[a.addr.op];
    if op.write != (d.flags < WRITE) then None else
    Some((Transfer(d.addr.buf, op.sector, op.write), s.addr.slot))
  }

  function Asked(q: Request): Transfer { Transfer(q.b, Sector(q.blockno), q.write) }

  function StatusOf(st: Stage): nat { if st.Queued? || st.Taken? then BUSY else 0 }

  /** The table holds the chain of request q, which is at stage st. */
  predicate Chain(t: Table, q: Request, st: Stage)
    requires TableSized(t) && Slots(q)
  {
    && t.desc[q.h] == HeadDesc(q) && t.desc[q.d1] == DataDesc(q) && t.desc[q.d2] == StatusDesc(q)
    && t.ops[q.h] == Op(q.write, Sector(q.blockno)) && t.info[q.h] == Info(Some(q.b), StatusOf(st))
  }

  /** The device sees exactly the request that was submitted. */
  lemma ChainDecodes(t: Table, q: Request, st: Stage)
    requires TableSized(t) && Slots(q) && Chain(t, q, st)
    ensures Decode(t, q.h) == Some((Asked(q), q.h))
  {
  }

  /** The sector is the block's exactly for block numbers below 2^31. */
  lemma SectorExact(blockno: nat)
    requires blockno < WORD
    ensures Sector(blockno) == 2 * blockno <==> blockno < 0x8000_0000
  {
  }

  /** From there on a request goes to the sector of another block, 2^31 below. */
  lemma SectorAliases(blockno: nat)
    requires 0x8000_0000 <= blockno < WORD
    ensures Sector(blockno) == Sector(blockno - 0x8000_0000) == 2 * (blockno - 0x8000_0000)
  {
  }

  /** Such a request is accepted: an idle process may start one for block 2^31, which goes to block 0. */
  lemma SectorFails(s: State, p: nat, b: nat, write: bool)
    requires Sized(s) && !s.panicked && p < |s.procs| && s.procs[p].Idle?
    requires forall q :: 0 <= q < |s.procs| ==> !InUse(s.procs[q], b)
    ensures Enabled(s, Start(p, b, 0x8000_0000, write)) && Enabled(s, Start(p, b, 0, write))
    ensures Asked(Request(p, b, 0x8000_0000, write, 0, 1, 2)) == Asked(Request(p, b, 0, write, 0, 1, 2))
  {
  }

  // ---------------------------------------------------------------- invariants

  predicate Live(g: History, j: int)
    requires |g.stage| == |g.reqs|
  {
    0 <= j < |g.reqs| && !g.stage[j].Returned?
  }

  predicate Holds(q: Request, d: int) { d == q.h || d == q.d1 || d == q.d2 }

  predicate SlotOk(free: seq<bool>, g: History, d: nat)
    requires |free| == |g.own| == NUM && |g.stage| == |g.reqs| && d < NUM
  {
    && (free[d] <==> g.own[d] == -1)
    && (g.own[d] != -1 ==> Live(g, g.own[d]) && Holds(g.reqs[g.own[d]], d))
  }

  predicate Owns(own: seq<int>, q: Request, j: int)
    requires |own| == NUM
  {
    Slots(q) && own[q.h] == own[q.d1] == own[q.d2] == j
  }

  /** Live chains are disjoint triples whose complement is the free set. */
  ghost predicate OwnOk(free: seq<bool>, g: History) {
    && |free| == |g.own| == NUM && |g.stage| == |g.reqs|
    && (forall d :: 0 <= d < NUM ==> SlotOk(free, g, d))
    && (forall j :: Live(g, j) ==> Owns(g.own, g.reqs[j], j))
  }

  ghost predicate TableOk(t: Table, g: History) {
    && TableSized(t) && OwnOk(t.free, g)
    && (forall d :: 0 <= d < NUM && t.free[d] ==> t.desc[d] == ZERO)
    && (forall j :: Live(g, j) ==> Chain(t, g.reqs[j], g.stage[j]))
  }

  predicate Completed(st: Stage) { st.Used? || st.Handled? || st.Returned? }

  predicate StageAt(g: History, j: int)
    requires 0 <= j < |g.reqs| == |g.stage|
  {
    && (g.stage[j].Queued? <==> j >= g.taken)
    && (Completed(g.stage[j]) ==> g.stage[j].k < |g.fin| && g.fin[g.stage[j].k] == j)
  }

  predicate FinAt(g: History, k: int)
    requires 0 <= k < |g.fin| == |g.moved| && |g.stage| == |g.reqs|
  {
    && g.fin[k] < |g.reqs| && Completed(g.stage[g.fin[k]]) && g.stage[g.fin[k]].k == k
    && (g.stage[g.fin[k]].Used? <==> k >= g.handled)
    && g.moved[k] == Asked(g.reqs[g.fin[k]])
  }

  /** Completion numbers and completed requests are in bijection. */
  predicate StageOk(g: History) {
    && |g.stage| == |g.reqs| && g.taken <= |g.reqs| && g.handled <= |g.fin| == |g.moved|
    && (forall j :: 0 <= j < |g.reqs| ==> StageAt(g, j))
    && (forall k :: 0 <= k < |g.fin| ==> FinAt(g, k))
  }

  predicate AvailAt(r: Rings, g: History, j: nat)
    requires |r.avail| == NUM && j < |g.reqs|
  {
    r.avail[j % NUM] == g.reqs[j].h
  }

  predicate UsedAt(r: Rings, g: History, k: nat)
    requires |r.used| == NUM && k < |g.fin| && g.fin[k] < |g.reqs|
  {
    r.used[k % NUM] == g.reqs[g.fin[k]].h
  }

  predicate RingsOk(r: Rings, g: History) {
    && |r.avail| == |r.used| == NUM
    && g.taken <= |g.reqs| <= g.taken + NUM && g.handled <= |g.fin| <= g.handled + NUM
    && r.availIdx == |g.reqs| % WRAP && r.took == g.taken % WRAP
    && r.usedIdx == |g.fin| % WRAP && r.seen == g.handled % WRAP
    && (forall j :: g.taken <= j < |g.reqs| ==> AvailAt(r, g, j))
    && (forall k :: g.handled <= k < |g.fin| ==> g.fin[k] < |g.reqs| && UsedAt(r, g, k))
  }

  predicate PendAt(pend: set<nat>, g: History, d: nat)
    requires |g.own| == NUM && |g.stage| == |g.reqs|
  {
    d in pend <==> d < NUM && Live(g, g.own[d]) && g.reqs[g.own[d]].h == d && g.stage[g.own[d]].Taken?
  }

  ghost predicate PendOk(pend: set<nat>, g: History) {
    |g.own| == NUM && |g.stage| == |g.reqs| && forall d: nat :: PendAt(pend, g, d)
  }

  /** No three descriptors are free. */
  predicate Short(free: seq<bool>) {
    forall a, b, c :: 0 <= a < b < c < |free| ==> !(free[a] && free[b] && free[c])
  }

  predicate InUse(x: Proc, b: nat) { (x.Wanting? && x.b == b) || (x.Waiting? && x.buf == b) }

  predicate ProcAt(s: State, p: int)
    requires 0 <= p < |s.procs| && |s.g.stage| == |s.g.reqs|
  {
    var x := s.procs[p];
    && (x.Wanting? ==> x.blockno < WORD && (x.short ==> Short(s.t.free)))
    && (x.Waiting? ==>
          && Live(s.g, x.j) && s.g.reqs[x.j].p == p && s.g.reqs[x.j].b == x.buf && s.g.reqs[x.j].h == x.h
          && (x.asleep ==> x.buf in s.busy))
  }

  predicate ReqAt(procs: seq<Proc>, busy: set<nat>, g: History, j: int)
    requires |g.stage| == |g.reqs| && Live(g, j)
  {
    var q := g.reqs[j];
    && q.p < |procs| && procs[q.p].Waiting? && procs[q.p].j == j
    && (q.b in busy <==> !g.stage[j].Handled?)
  }

  /** Every live request has its process, no buffer is in two requests, and nobody sleeps who could go on. */
  ghost predicate ProcsOk(s: State) {
    && |s.g.stage| == |s.g.reqs|
    && (forall p :: 0 <= p < |s.procs| ==> ProcAt(s, p))
    && (forall j :: Live(s.g, j) ==> ReqAt(s.procs, s.busy, s.g, j))
    && (forall p, q, b :: 0 <= p < |s.procs| && 0 <= q < |s.procs| && InUse(s.procs[p], b) && InUse(s.procs[q], b) ==>
      p == q)
  }

  ghost predicate Inv(s: State) {
    TableOk(s.t, s.g) && StageOk(s.g) && RingsOk(s.r, s.g) && PendOk(s.pend, s.g) && ProcsOk(s) && !s.panicked
  }

  // ---------------------------------------------------------------- steps

  /** Start: a process that holds buffer b calls virtio_disk_rw. Wait: it finds no three free descriptors and
      sleeps. Submit: it fills in a chain and sleeps on b. Take, Complete: the device reads the next avail
      entry, and finishes any request it has. Handle: one turn of the loop in virtio_disk_intr. Resume: a
      process woken on its buffer sleeps again or frees its chain and returns. */
  datatype Event =
    | Start(p: nat, b: nat, blockno: nat, write: bool) | Wait(p: nat) | Submit(p: nat, h: nat, d1: nat, d2: nat)
    | Take | Complete(h: nat) | Handle | Resume(p: nat)

  function Wake(x: Proc, b: nat): Proc { if x.Waiting? && x.buf == b then x.(asleep := false) else x }

  function WakeShort(x: Proc): Proc { if x.Wanting? then x.(short := false) else x }

  function WakeAll(procs: seq<Proc>, b: nat): (r: seq<Proc>)
    ensures |r| == |procs| && forall i :: 0 <= i < |r| ==> r[i] == Wake(procs[i], b)
  {
    seq(|procs|, i requires 0 <= i < |procs| => Wake(procs[i], b))
  }

  function WakeAllShort(procs: seq<Proc>): (r: seq<Proc>)
    ensures |r| == |procs| && forall i :: 0 <= i < |r| ==> r[i] == WakeShort(procs[i])
  {
    seq(|procs|, i requires 0 <= i < |procs| => WakeShort(procs[i]))
  }

  function Put<T>(s: seq<T>, i: int, x: T): seq<T> { if 0 <= i < |s| then s[i := x] else s }

  predicate Sized(s: State) { TableSized(s.t) && |s.r.avail| == |s.r.used| == |s.g.own| == NUM }

  predicate Enabled(s: State, e: Event) {
    && Sized(s) && !s.panicked
    && match e
       case Start(p, b, blockno, _) =>
         && p < |s.procs| && s.procs[p].Idle? && blockno < WORD
         && forall q :: 0 <= q < |s.procs| ==> !InUse(s.procs[q], b)
       case Wait(p) => p < |s.procs| && s.procs[p].Wanting? && !s.procs[p].short && Short(s.t.free)
       case Submit(p, h, d1, d2) =>
         && p < |s.procs| && s.procs[p].Wanting? && !s.procs[p].short
         && h < NUM && d1 < NUM && d2 < NUM && h != d1 && h != d2 && d1 != d2
         && s.t.free[h] && s.t.free[d1] && s.t.free[d2]
       case Take => s.r.took != s.r.availIdx
       case Complete(h) => h in s.pend
       case Handle => s.r.seen != s.r.usedIdx
       case Resume(p) => p < |s.procs| && s.procs[p].Waiting? && !s.procs[p].asleep
  }

  function Busy(free: seq<bool>): set<nat> { set i: nat | i < |free| && !free[i] }

  function FreeDesc(t: Table, i: nat): Table
    requires TableSized(t) && i < NUM
  {
    t.(free := t.free[i := true], desc := t.desc[i := ZERO])
  }

  /** free_chain; None is a panic in free_desc. */
  function FreeChain(t: Table, i: nat): (r: Option<Table>)
    requires TableSized(t)
    ensures r.Some? ==> TableSized(r.value)
    decreases Busy(t.free)
  {
    if i >= NUM || t.free[i] then None else
    var u := FreeDesc(t, i);
    assert i in Busy(t.free) && i !in Busy(u.free) && Busy(u.free) <= Busy(t.free);
    if t.desc[i].flags % 2 == NEXT then FreeChain(u, t.desc[i].next) else Some(u)
  }

  function Submitted(g: History, q: Request): History
    requires |g.own| == NUM && Slots(q)
  {
    g.(reqs := g.reqs + [q], stage := g.stage + [Queued],
       own := g.own[q.h := |g.reqs|][q.d1 := |g.reqs|][q.d2 := |g.reqs|])
  }

  function ApplySubmit(s: State, p: nat, h: nat, d1: nat, d2: nat): State
    requires Enabled(s, Submit(p, h, d1, d2))
  {
    var x := s.procs[p];
    var q := Request(p, x.b, x.blockno, x.write, h, d1, d2);
    s.(t := Formatted(s.t, q),
       r := s.r.(avail := s.r.avail[s.r.availIdx % NUM := h], availIdx := (s.r.availIdx + 1) % WRAP),
       g := Submitted(s.g, q),
       procs := s.procs[p := Waiting(|s.g.reqs|, x.b, h, true)],
       busy := s.busy + {x.b})
  }

  function ApplyTake(s: State): State
    requires Enabled(s, Take)
  {
    s.(r := s.r.(took := (s.r.took + 1) % WRAP),
       g := s.g.(stage := Put(s.g.stage, s.g.taken, Taken), taken := s.g.taken + 1),
       pend := s.pend + {s.r.avail[s.r.took % NUM]})
  }

  /** A device that finds no request in the chain is not lawful; its step is a panic here. */
  function ApplyComplete(s: State, h: nat): State
    requires Enabled(s, Complete(h))
  {
    var d := Decode(s.t, h);
    if d.None? then s.(panicked := true) else
    var slot := d.value.1;
    var j := s.g.own[h % NUM];
    s.(t := s.t.(info := s.t.info[slot := s.t.info[slot].(status := 0)]),
       r := s.r.(used := s.r.used[s.r.usedIdx % NUM := h], usedIdx := (s.r.usedIdx + 1) % WRAP),
       g := s.g.(stage := Put(s.g.stage, j, Used(|s.g.fin|)), fin := s.g.fin + [if j < 0 then 0 else j],
                 moved := s.g.moved + [d.value.0]),
       pend := s.pend - {h})
  }

  function ApplyHandle(s: State): State
    requires Enabled(s, Handle)
  {
    var id := s.r.used[s.r.seen % NUM];
    if id >= NUM || s.t.info[id].status != 0 || s.t.info[id].b.None? then s.(panicked := true) else
    var b := s.t.info[id].b.value;
    var j := if s.g.handled < |s.g.fin| then s.g.fin[s.g.handled] else 0;
    s.(r := s.r.(seen := (s.r.seen + 1) % WRAP),
       g := s.g.(stage := Put(s.g.stage, j, Handled(s.g.handled)), handled := s.g.handled + 1),
       procs := WakeAll(s.procs, b),
       busy := s.busy - {b})
  }

  function Unowned(own: seq<int>, j: int): (r: seq<int>)
    ensures |r| == |own| && forall d :: 0 <= d < |r| ==> r[d] == if own[d] == j then -1 else own[d]
  {
    seq(|own|, d requires 0 <= d < |own| => if own[d] == j then -1 else own[d])
  }

  function Finished(g: History, j: nat): History {
    g.(stage := Put(g.stage, j, if j < |g.stage| && g.stage[j].Handled? then Returned(g.stage[j].k) else Queued),
       own := Unowned(g.own, j))
  }

  function ApplyResume(s: State, p: nat): State
    requires Enabled(s, Resume(p))
  {
    var x := s.procs[p];
    if x.buf in s.busy then s.(procs := s.procs[p := x.(asleep := true)]) else
    if x.h >= NUM then s.(panicked := true) else
    var t := s.t.(info := s.t.info[x.h := s.t.info[x.h].(b := None)]);
    var u := FreeChain(t, x.h);
    if u.None? then s.(panicked := true) else
    s.(t := u.value, g := Finished(s.g, x.j), procs := WakeAllShort(s.procs)[p := Idle])
  }

  function ApplyWait(s: State, p: nat): State
    requires Enabled(s, Wait(p))
  {
    // a failed alloc3_desc gives back what it had taken, and each free_desc wakes the others
    var procs := if true in s.t.free then WakeAllShort(s.procs) else s.procs;
    s.(procs := procs[p := s.procs[p].(short := true)])
  }

  function Apply(s: State, e: Event): State
    requires Enabled(s, e)
  {
    match e
    case Start(p, b, blockno, write) => s.(procs := s.procs[p := Wanting(b, blockno, write, false)])
    case Wait(p) => ApplyWait(s, p)
    case Submit(p, h, d1, d2) => ApplySubmit(s, p, h, d1, d2)
    case Take => ApplyTake(s)
    case Complete(h) => ApplyComplete(s, h)
    case Handle => ApplyHandle(s)
    case Resume(p) => ApplyResume(s, p)
  }

  // ---------------------------------------------------------------- ring arithmetic

  /** A multiple of the ring size does not matter. */
  lemma SlotOf(a: nat, r: nat)
    ensures (NUM * a + r) % NUM == r % NUM
  {
  }

  lemma NextOf(q: nat, r: nat)
    requires r < WRAP
    ensures (q * WRAP + r + 1) % WRAP == (r + 1) % WRAP
  {
    if r + 1 == WRAP { assert q * WRAP + r + 1 == (q + 1) * WRAP; }
  }

  lemma WrappedOne(x: nat)
    ensures (x % WRAP) % NUM == x % NUM && (x % WRAP + 1) % WRAP == (x + 1) % WRAP
  {
    var q, r := x / WRAP, x % WRAP;
    assert x == q * WRAP + r == NUM * (0x2000 * q) + r;
    SlotOf(0x2000 * q, r);
    NextOf(q, r);
  }

  /** 16-bit indices still tell the slot and whether the ring has news. */
  lemma Wrapped(lo: nat, hi: nat)
    requires lo <= hi <= lo + NUM
    ensures lo % WRAP != hi % WRAP <==> lo < hi
    ensures (lo % WRAP) % NUM == lo % NUM && (lo % WRAP + 1) % WRAP == (lo + 1) % WRAP
    ensures (hi % WRAP) % NUM == hi % NUM && (hi % WRAP + 1) % WRAP == (hi + 1) % WRAP
  {
    WrappedOne(lo);
    WrappedOne(hi);
    assert lo % WRAP == hi % WRAP ==> (hi - lo) % WRAP == 0 by {
      assert hi - lo == (hi / WRAP - lo / WRAP) * WRAP + (hi % WRAP - lo % WRAP);
    }
  }

  lemma SlotsDiffer(i: nat, j: nat)
    requires i < j < i + NUM
    ensures i % NUM != j % NUM
  {
  }

  /** Distinct numbers below n are at most n many. */
  lemma {:induction false} Pigeonhole(s: seq<int>, n: nat)
    requires forall i :: 0 <= i < |s| ==> 0 <= s[i] < n
    requires forall i, j :: 0 <= i < j < |s| ==> s[i] != s[j]
    ensures |s| <= n
  {
    if |s| > 0 {
      assert s[0] < n;
      if k :| 0 <= k < |s| && s[k] == n - 1 {
        Pigeonhole(s[..k] + s[k + 1..], n - 1);
      } else {
        Pigeonhole(s, n - 1);
      }
    }
  }

  /** The queued requests, and the unseen completions, fit into the rings. */
  lemma QueuedFit(free: seq<bool>, g: History)
    requires OwnOk(free, g) && StageOk(g)
    ensures |g.reqs| <= g.taken + NUM
  {
    var s: seq<int> := seq(|g.reqs| - g.taken, i requires 0 <= i < |g.reqs| - g.taken => g.reqs[g.taken + i].h);
    forall i | 0 <= i < |s| ensures 0 <= s[i] < NUM && g.own[s[i]] == g.taken + i {
      assert StageAt(g, g.taken + i) && Live(g, g.taken + i);
    }
    Pigeonhole(s, NUM);
  }

  lemma UsedFit(free: seq<bool>, g: History)
    requires OwnOk(free, g) && StageOk(g)
    ensures |g.fin| <= g.handled + NUM
  {
    var s: seq<int> := seq(|g.fin| - g.handled, i requires 0 <= i < |g.fin| - g.handled =>
      assert FinAt(g, g.handled + i); g.reqs[g.fin[g.handled + i]].h);
    forall i | 0 <= i < |s|
      ensures 0 <= s[i] < NUM && g.own[s[i]] == g.fin[g.handled + i] < |g.stage|
      ensures g.stage[g.fin[g.handled + i]] == Used(g.handled + i)
    {
      assert FinAt(g, g.handled + i) && Live(g, g.fin[g.handled + i]);
    }
    Pigeonhole(s, NUM);
  }

  // ---------------------------------------------------------------- submission

  lemma SubmitTable(t: Table, g: History, q: Request)
    requires TableOk(t, g) && Slots(q) && t.free[q.h] && t.free[q.d1] && t.free[q.d2]
    ensures TableOk(Formatted(t, q), Submitted(g, q))
  {
    var u, k := Formatted(t, q), Submitted(g, q);
    assert SlotOk(t.free, g, q.h) && SlotOk(t.free, g, q.d1) && SlotOk(t.free, g, q.d2);
    forall d | 0 <= d < NUM ensures SlotOk(u.free, k, d) { assert SlotOk(t.free, g, d); }
    forall j | Live(k, j) ensures Owns(k.own, k.reqs[j], j) && Chain(u, k.reqs[j], k.stage[j]) {
      if j < |g.reqs| { assert Live(g, j) && Owns(g.own, g.reqs[j], j) && Chain(t, g.reqs[j], g.stage[j]); }
    }
  }

  lemma SubmitStages(g: History, q: Request)
    requires StageOk(g) && |g.own| == NUM && Slots(q)
    ensures StageOk(Submitted(g, q))
  {
    var k := Submitted(g, q);
    forall j | 0 <= j < |k.reqs| ensures StageAt(k, j) {
      if j < |g.reqs| { assert StageAt(g, j); }
    }
    forall i | 0 <= i < |k.fin| ensures FinAt(k, i) { assert FinAt(g, i); }
  }

  lemma SubmitRings(r: Rings, g: History, q: Request, r': Rings, k: History)
    requires RingsOk(r, g) && |g.own| == NUM && Slots(q) && k == Submitted(g, q) && |k.reqs| <= k.taken + NUM
    requires r' == r.(avail := r.avail[r.availIdx % NUM := q.h], availIdx := (r.availIdx + 1) % WRAP)
    ensures RingsOk(r', k)
  {
    Wrapped(g.taken, |g.reqs|);
    forall j | k.taken <= j < |k.reqs| ensures AvailAt(r', k, j) {
      if j < |g.reqs| { assert AvailAt(r, g, j); SlotsDiffer(j, |g.reqs|); }
    }
    forall i | k.handled <= i < |k.fin| ensures k.fin[i] < |k.reqs| && UsedAt(r', k, i) { assert UsedAt(r, g, i); }
  }

  lemma SubmitProcs(s: State, e: Event)
    requires e.Submit? && Enabled(s, e) && ProcsOk(s)
    ensures ProcsOk(Apply(s, e))
  {
    var u := Apply(s, e);
    assert ProcAt(s, e.p);
    forall p | 0 <= p < |u.procs| ensures ProcAt(u, p) { assert ProcAt(s, p); }
    forall j | Live(u.g, j) ensures ReqAt(u.procs, u.busy, u.g, j) {
      if j < |s.g.reqs| {
        assert Live(s.g, j) && ReqAt(s.procs, s.busy, s.g, j);
        assert ProcAt(s, s.g.reqs[j].p);
        assert InUse(s.procs[s.g.reqs[j].p], s.g.reqs[j].b) && InUse(s.procs[e.p], s.procs[e.p].b);
      }
    }
    forall p, q, b | 0 <= p < |u.procs| && 0 <= q < |u.procs| && InUse(u.procs[p], b) && InUse(u.procs[q], b)
      ensures p == q
    {
      assert InUse(s.procs[p], b) && InUse(s.procs[q], b);
    }
  }

  lemma SubmitPend(free: seq<bool>, pend: set<nat>, g: History, q: Request)
    requires OwnOk(free, g) && PendOk(pend, g) && Slots(q) && free[q.h] && free[q.d1] && free[q.d2]
    ensures PendOk(pend, Submitted(g, q))
  {
    forall d: nat ensures PendAt(pend, Submitted(g, q), d) {
      assert PendAt(pend, g, d);
      if d < NUM { assert SlotOk(free, g, d); }
    }
  }

  lemma SubmitKeeps(s: State, e: Event)
    requires e.Submit? && Enabled(s, e) && Inv(s)
    ensures Inv(Apply(s, e))
  {
    var u, x := Apply(s, e), s.procs[e.p];
    var q := Request(e.p, x.b, x.blockno, x.write, e.h, e.d1, e.d2);
    SubmitTable(s.t, s.g, q);
    SubmitStages(s.g, q);
    QueuedFit(u.t.free, u.g);
    SubmitRings(s.r, s.g, q, u.r, u.g);
    SubmitProcs(s, e);
    SubmitPend(s.t.free, s.pend, s.g, q);
  }

  // ---------------------------------------------------------------- the device

  /** Only the head of request j changes sides when only its stage changes. */
  lemma PendMoves(free: seq<bool>, pend: set<nat>, g: History, j: nat, pend': set<nat>, k: History)
    requires OwnOk(free, g) && PendOk(pend, g) && Live(g, j)
    requires k.reqs == g.reqs && k.own == g.own && |k.stage| == |g.stage|
    requires k.stage == g.stage[j := k.stage[j]] && !k.stage[j].Returned?
    requires pend' == if k.stage[j].Taken? then pend + {g.reqs[j].h} else pend - {g.reqs[j].h}
    ensures PendOk(pend', k)
  {
    assert Owns(g.own, g.reqs[j], j);
    forall d: nat ensures PendAt(pend', k, d) {
      assert PendAt(pend, g, d);
      if d < NUM { assert SlotOk(free, g, d); }
    }
  }

  lemma TakeStages(r: Rings, g: History, r': Rings, k: History)
    requires StageOk(g) && RingsOk(r, g) && g.taken < |g.reqs|
    requires k == g.(stage := g.stage[g.taken := Taken], taken := g.taken + 1) && r' == r.(took := (r.took + 1) % WRAP)
    ensures StageOk(k) && RingsOk(r', k)
  {
    WrappedOne(g.taken);
    assert StageAt(g, g.taken);
    forall i | 0 <= i < |k.reqs| ensures StageAt(k, i) { assert StageAt(g, i); }
    forall i | 0 <= i < |k.fin| ensures FinAt(k, i) { assert FinAt(g, i); }
    forall i | k.taken <= i < |k.reqs| ensures AvailAt(r', k, i) { assert AvailAt(r, g, i); }
    forall i | k.handled <= i < |k.fin| ensures UsedAt(r', k, i) { assert UsedAt(r, g, i); }
  }

  lemma TakeKeeps(s: State)
    requires Enabled(s, Take) && Inv(s)
    ensures Inv(Apply(s, Take))
  {
    var u, j := Apply(s, Take), s.g.taken;
    Wrapped(s.g.taken, |s.g.reqs|);
    assert StageAt(s.g, j) && AvailAt(s.r, s.g, j);
    TakeStages(s.r, s.g, u.r, u.g);
    Restaged(s, u, j);
    PendMoves(s.t.free, s.pend, s.g, j, u.pend, u.g);
  }

  /** Moving request j to another stage of its life changes neither who holds what nor who waits for what. */
  lemma Restaged(s: State, u: State, j: nat)
    requires TableOk(s.t, s.g) && ProcsOk(s) && Live(s.g, j)
    requires u.g.reqs == s.g.reqs && u.g.own == s.g.own && |u.g.stage| == |s.g.stage|
    requires u.g.stage == s.g.stage[j := u.g.stage[j]] && !u.g.stage[j].Returned?
    requires u.g.stage[j].Handled? == s.g.stage[j].Handled? && u.procs == s.procs && u.busy == s.busy
    requires u.t == s.t.(info := s.t.info[s.g.reqs[j].h := Info(Some(s.g.reqs[j].b), StatusOf(u.g.stage[j]))])
    ensures TableOk(u.t, u.g) && ProcsOk(u)
  {
    forall d | 0 <= d < NUM ensures SlotOk(u.t.free, u.g, d) { assert SlotOk(s.t.free, s.g, d); }
    forall i | Live(u.g, i)
      ensures Owns(u.g.own, u.g.reqs[i], i) && Chain(u.t, u.g.reqs[i], u.g.stage[i]) && ReqAt(u.procs, u.busy, u.g, i)
    {
      assert Live(s.g, i) && Owns(s.g.own, s.g.reqs[i], i) && Chain(s.t, s.g.reqs[i], s.g.stage[i]);
      assert Owns(s.g.own, s.g.reqs[j], j) && ReqAt(s.procs, s.busy, s.g, i);
    }
    forall p | 0 <= p < |u.procs| ensures ProcAt(u, p) { assert ProcAt(s, p); }
  }

  /** Completing a request the device has taken, as the history sees it. */
  lemma CompleteStages(g: History, j: nat, k: History)
    requires StageOk(g) && j < |g.reqs| && g.stage[j].Taken?
    requires k == g.(stage := g.stage[j := Used(|g.fin|)], fin := g.fin + [j], moved := g.moved + [Asked(g.reqs[j])])
    ensures StageOk(k)
  {
    assert StageAt(g, j);
    forall i | 0 <= i < |k.reqs| ensures StageAt(k, i) { assert StageAt(g, i); }
    forall i | 0 <= i < |k.fin| ensures FinAt(k, i) {
      if i < |g.fin| { assert FinAt(g, i); }
    }
  }

  lemma CompleteRings(r: Rings, g: History, r': Rings, k: History)
    requires RingsOk(r, g) && |k.fin| == |g.fin| + 1 && k.fin[..|g.fin|] == g.fin && |k.fin| <= g.handled + NUM
    requires k.reqs == g.reqs && k.taken == g.taken && k.handled == g.handled && k.fin[|g.fin|] < |k.reqs|
    requires r' == r.(used := r.used[r.usedIdx % NUM := k.reqs[k.fin[|g.fin|]].h], usedIdx := (r.usedIdx + 1) % WRAP)
    ensures RingsOk(r', k)
  {
    Wrapped(g.handled, |g.fin|);
    forall i | k.handled <= i < |k.fin| ensures k.fin[i] < |k.reqs| && UsedAt(r', k, i) {
      if i < |g.fin| { assert k.fin[i] == k.fin[..|g.fin|][i] && UsedAt(r, g, i); SlotsDiffer(i, |g.fin|); }
    }
    forall j | k.taken <= j < |k.reqs| ensures AvailAt(r', k, j) { assert AvailAt(r, g, j); }
  }

  lemma CompleteKeeps(s: State, h: nat)
    requires Enabled(s, Complete(h)) && Inv(s)
    ensures Inv(Apply(s, Complete(h)))
  {
    assert PendAt(s.pend, s.g, h);
    var u, j := Apply(s, Complete(h)), s.g.own[h];
    var q := s.g.reqs[j];
    assert Chain(s.t, q, s.g.stage[j]) && Owns(s.g.own, q, j);
    ChainDecodes(s.t, q, s.g.stage[j]);
    Restaged(s, u, j);
    CompleteStages(s.g, j, u.g);
    UsedFit(u.t.free, u.g);
    CompleteRings(s.r, s.g, u.r, u.g);
    PendMoves(s.t.free, s.pend, s.g, j, u.pend, u.g);
  }

  // ---------------------------------------------------------------- the interrupt handler

  /** Every unprocessed used entry names a live chain with its buffer and a good status. */
  lemma UsedEntry(s: State) returns (j: nat)
    requires TableOk(s.t, s.g) && StageOk(s.g) && RingsOk(s.r, s.g) && s.r.seen != s.r.usedIdx
    ensures s.g.handled < |s.g.fin| && j == s.g.fin[s.g.handled] && Live(s.g, j) && s.g.stage[j] == Used(s.g.handled)
    ensures Slots(s.g.reqs[j]) && s.r.used[s.r.seen % NUM] == s.g.reqs[j].h
    ensures s.t.info[s.g.reqs[j].h] == Info(Some(s.g.reqs[j].b), 0)
  {
    Wrapped(s.g.handled, |s.g.fin|);
    j := s.g.fin[s.g.handled];
    assert FinAt(s.g, s.g.handled) && UsedAt(s.r, s.g, s.g.handled);
    assert Owns(s.g.own, s.g.reqs[j], j) && Chain(s.t, s.g.reqs[j], s.g.stage[j]);
  }

  lemma HandleStages(r: Rings, g: History, r': Rings, k: History)
    requires StageOk(g) && RingsOk(r, g) && g.handled < |g.fin|
    requires k == g.(stage := Put(g.stage, g.fin[g.handled], Handled(g.handled)), handled := g.handled + 1)
    requires r' == r.(seen := (r.seen + 1) % WRAP)
    ensures StageOk(k) && RingsOk(r', k)
  {
    WrappedOne(g.handled);
    assert FinAt(g, g.handled);
    forall i | 0 <= i < |k.reqs| ensures StageAt(k, i) { assert StageAt(g, i); }
    forall i | 0 <= i < |k.fin| ensures FinAt(k, i) { assert FinAt(g, i); }
    forall i | k.handled <= i < |k.fin| ensures UsedAt(r', k, i) { assert UsedAt(r, g, i); }
    forall j | k.taken <= j < |k.reqs| ensures AvailAt(r', k, j) { assert AvailAt(r, g, j); }
  }

  lemma HandleProcs(s: State, u: State, j: nat)
    requires ProcsOk(s) && Live(s.g, j) && s.g.stage[j].Used?
    requires u.g.reqs == s.g.reqs && u.g.stage == s.g.stage[j := Handled(s.g.stage[j].k)] && u.t == s.t
    requires u.procs == WakeAll(s.procs, s.g.reqs[j].b) && u.busy == s.busy - {s.g.reqs[j].b}
    ensures ProcsOk(u)
  {
    var b := s.g.reqs[j].b;
    assert ReqAt(s.procs, s.busy, s.g, j) && ProcAt(s, s.g.reqs[j].p);
    assert InUse(s.procs[s.g.reqs[j].p], b);
    forall p | 0 <= p < |u.procs| ensures ProcAt(u, p) { assert ProcAt(s, p); }
    forall i | Live(u.g, i) ensures ReqAt(u.procs, u.busy, u.g, i) {
      assert Live(s.g, i) && ReqAt(s.procs, s.busy, s.g, i) && ProcAt(s, s.g.reqs[i].p);
      assert InUse(s.procs[s.g.reqs[i].p], s.g.reqs[i].b);
    }
    forall p, q, c | 0 <= p < |u.procs| && 0 <= q < |u.procs| && InUse(u.procs[p], c) && InUse(u.procs[q], c)
      ensures p == q
    {
      assert InUse(s.procs[p], c) && InUse(s.procs[q], c);
    }
  }

  lemma HandleKeeps(s: State)
    requires Enabled(s, Handle) && Inv(s)
    ensures Inv(Apply(s, Handle))
  {
    var j := UsedEntry(s);
    var u := Apply(s, Handle);
    HandleStages(s.r, s.g, u.r, u.g);
    HandleProcs(s, u, j);
    forall d | 0 <= d < NUM ensures SlotOk(u.t.free, u.g, d) { assert SlotOk(s.t.free, s.g, d); }
    forall i | Live(u.g, i) ensures Owns(u.g.own, u.g.reqs[i], i) && Chain(u.t, u.g.reqs[i], u.g.stage[i]) {
      assert Live(s.g, i) && Owns(s.g.own, s.g.reqs[i], i) && Chain(s.t, s.g.reqs[i], s.g.stage[i]);
    }
    forall d: nat ensures PendAt(u.pend, u.g, d) { assert PendAt(s.pend, s.g, d); }
  }

  // ---------------------------------------------------------------- return

  /** free_chain frees exactly the three descriptors of a chain, without a panic. */
  lemma ChainFrees(t: Table, q: Request, st: Stage)
    requires TableSized(t) && Slots(q) && Chain(t, q, st) && !t.free[q.h] && !t.free[q.d1] && !t.free[q.d2]
    ensures FreeChain(t.(info := t.info[q.h := t.info[q.h].(b := None)]), q.h) == Some(Freed(t, q))
  {
    var t0 := t.(info := t.info[q.h := t.info[q.h].(b := None)]);
    var t1 := FreeDesc(t0, q.h);
    var t2 := FreeDesc(t1, q.d1);
    assert FreeChain(t2, q.d2) == Some(FreeDesc(t2, q.d2));
    assert FreeChain(t1, q.d1) == FreeChain(t2, q.d2);
    assert FreeChain(t0, q.h) == FreeChain(t1, q.d1);
  }

  lemma ResumeTable(t: Table, g: History, j: nat, k: History)
    requires TableOk(t, g) && Live(g, j) && g.stage[j].Handled? && k == Finished(g, j)
    ensures Slots(g.reqs[j]) && TableOk(Freed(t, g.reqs[j]), k)
  {
    var q := g.reqs[j];
    assert Owns(g.own, q, j);
    var u := Freed(t, q);
    forall d | 0 <= d < NUM ensures SlotOk(u.free, k, d) { assert SlotOk(t.free, g, d); }
    forall i | Live(k, i) ensures Owns(k.own, k.reqs[i], i) && Chain(u, k.reqs[i], k.stage[i]) {
      assert Live(g, i) && Owns(g.own, g.reqs[i], i) && Chain(t, g.reqs[i], g.stage[i]);
    }
  }

  lemma ResumeStages(r: Rings, g: History, j: nat, k: History)
    requires StageOk(g) && RingsOk(r, g) && Live(g, j) && g.stage[j].Handled? && k == Finished(g, j)
    ensures StageOk(k) && RingsOk(r, k)
  {
    forall i | 0 <= i < |k.reqs| ensures StageAt(k, i) { assert StageAt(g, i); }
    forall i | 0 <= i < |k.fin| ensures FinAt(k, i) { assert FinAt(g, i); }
    forall i | k.handled <= i < |k.fin| ensures UsedAt(r, k, i) { assert UsedAt(r, g, i); }
    forall i | k.taken <= i < |k.reqs| ensures AvailAt(r, k, i) { assert AvailAt(r, g, i); }
  }

  lemma ResumeProcs(s: State, u: State, p: nat)
    requires ProcsOk(s) && p < |s.procs| && s.procs[p].Waiting? && s.procs[p].buf !in s.busy
    requires u.g == Finished(s.g, s.procs[p].j) && u.busy == s.busy && u.procs == WakeAllShort(s.procs)[p := Idle]
    ensures Live(s.g, s.procs[p].j) && s.g.stage[s.procs[p].j].Handled? && ProcsOk(u)
  {
    assert ProcAt(s, p) && ReqAt(s.procs, s.busy, s.g, s.procs[p].j);
    forall q | 0 <= q < |u.procs| ensures ProcAt(u, q) {
      assert ProcAt(s, q);
      if s.procs[q].Waiting? { assert ReqAt(s.procs, s.busy, s.g, s.procs[q].j); }
    }
    forall i | Live(u.g, i) ensures ReqAt(u.procs, u.busy, u.g, i) {
      assert Live(s.g, i) && ReqAt(s.procs, s.busy, s.g, i);
    }
    forall q, q', c | 0 <= q < |u.procs| && 0 <= q' < |u.procs| && InUse(u.procs[q], c) && InUse(u.procs[q'], c)
      ensures q == q'
    {
      assert InUse(s.procs[q], c) && InUse(s.procs[q'], c);
    }
  }

  lemma ReturnKeeps(s: State, p: nat)
    requires Enabled(s, Resume(p)) && Inv(s) && s.procs[p].buf !in s.busy
    ensures Inv(Apply(s, Resume(p)))
  {
    var x, u := s.procs[p], Apply(s, Resume(p));
    assert ProcAt(s, p) && ReqAt(s.procs, s.busy, s.g, x.j);
    var q, st := s.g.reqs[x.j], s.g.stage[x.j];
    assert Owns(s.g.own, q, x.j) && Chain(s.t, q, st);
    assert SlotOk(s.t.free, s.g, q.h) && SlotOk(s.t.free, s.g, q.d1) && SlotOk(s.t.free, s.g, q.d2);
    ChainFrees(s.t, q, st);
    ResumeTable(s.t, s.g, x.j, u.g);
    ResumeStages(s.r, s.g, x.j, u.g);
    ResumeProcs(s, u, p);
    forall d: nat ensures PendAt(u.pend, u.g, d) {
      assert PendAt(s.pend, s.g, d);
    }
  }

  /** A step of one process that touches only its own sleeping state or its wish. */
  lemma LocalKeeps(s: State, e: Event)
    requires e.Start? || e.Wait? ||
      (e.Resume? && e.p < |s.procs| && s.procs[e.p].Waiting? && s.procs[e.p].buf in s.busy)
    requires Enabled(s, e) && Inv(s)
    ensures Inv(Apply(s, e))
  {
    var u := Apply(s, e);
    forall q | 0 <= q < |u.procs| ensures ProcAt(u, q) { assert ProcAt(s, q); }
    forall i | Live(u.g, i) ensures ReqAt(u.procs, u.busy, u.g, i) {
      assert ReqAt(s.procs, s.busy, s.g, i);
    }
    forall q, q', c | 0 <= q < |u.procs| && 0 <= q' < |u.procs| && InUse(u.procs[q], c) && InUse(u.procs[q'], c)
      ensures q == q'
    {
      assert e.Start? || (InUse(s.procs[q], c) && InUse(s.procs[q'], c));
    }
  }

  lemma StepKeeps(s: State, e: Event)
    requires Enabled(s, e) && Inv(s)
    ensures Inv(Apply(s, e))
  {
    match e
    case Start(_, _, _, _) => LocalKeeps(s, e);
    case Wait(_) => LocalKeeps(s, e);
    case Submit(_, _, _, _) => SubmitKeeps(s, e);
    case Take => TakeKeeps(s);
    case Complete(h) => CompleteKeeps(s, h);
    case Handle => HandleKeeps(s);
    case Resume(p) => if s.procs[p].buf in s.busy { LocalKeeps(s, e); } else { ReturnKeeps(s, p); }
  }

  // ---------------------------------------------------------------- whole runs

  ghost predicate Init(s: State) {
    && s.t.free == seq(NUM, _ => true) && s.t.desc == seq(NUM, _ => ZERO) && TableSized(s.t)
    && s.r == Rings(seq(NUM, _ => 0), 0, 0, seq(NUM, _ => 0), 0, 0)
    && s.g == History([], [], 0, [], 0, seq(NUM, _ => -1), [])
    && (forall p :: 0 <= p < |s.procs| ==> s.procs[p] == Idle)
    && s.busy == {} && s.pend == {} && !s.panicked
  }

  ghost predicate Run(ss: seq<State>, es: seq<Event>) {
    && |ss| == |es| + 1 && Init(ss[0])
    && forall i :: 0 <= i < |es| ==> Enabled(ss[i], es[i]) && ss[i + 1] == Apply(ss[i], es[i])
  }

  /** On every run of any number of processes, with any completion order and any number of index wraps, the
      queue invariant holds; in particular no free_desc, null-buffer or status panic is reached. */
  lemma {:induction false} RunKeeps(ss: seq<State>, es: seq<Event>, k: nat)
    requires Run(ss, es) && k <= |es|
    ensures Inv(ss[k]) && !ss[k].panicked
  {
    if k == 0 {
      var s := ss[0];
      assert forall d :: 0 <= d < NUM ==> SlotOk(s.t.free, s.g, d);
      assert forall d: nat :: PendAt(s.pend, s.g, d);
    } else {
      RunKeeps(ss, es, k - 1);
      StepKeeps(ss[k - 1], es[k - 1]);
      assert ss[k - 1 + 1] == Apply(ss[k - 1], es[k - 1]);
    }
  }

  /** The free set is exactly the complement of the live chains, and live chains share no descriptor. */
  lemma FreeSetExact(ss: seq<State>, es: seq<Event>, k: nat, d: nat, i: nat, j: nat)
    requires Run(ss, es) && k <= |es| && d < NUM
    ensures var s := ss[k];
      && |s.t.free| == NUM && |s.g.stage| == |s.g.reqs|
      && (s.t.free[d] <==> !exists n :: Live(s.g, n) && Holds(s.g.reqs[n], d))
      && (Live(s.g, i) && Live(s.g, j) && Holds(s.g.reqs[i], d) && Holds(s.g.reqs[j], d) ==> i == j)
  {
    RunKeeps(ss, es, k);
    var s := ss[k];
    assert SlotOk(s.t.free, s.g, d);
    assert forall n :: Live(s.g, n) ==> Owns(s.g.own, s.g.reqs[n], n);
  }

  /** Every request that returned, or that the handler has seen, was completed by the device exactly once, with
      the transfer that was asked for; and nothing is completed that was not asked for. */
  lemma ExactlyOnce(ss: seq<State>, es: seq<Event>, n: nat, j: nat, k: nat)
    requires Run(ss, es) && n <= |es| && j < |ss[n].g.reqs| && k < |ss[n].g.fin|
    ensures var g := ss[n].g;
      && |g.stage| == |g.reqs| && |g.moved| == |g.fin|
      && (Completed(g.stage[j]) <==> j in g.fin)
      && (forall k' :: 0 <= k' < |g.fin| && g.fin[k'] == g.fin[k] ==> k' == k)
      && g.fin[k] < |g.reqs| && g.moved[k] == Asked(g.reqs[g.fin[k]])
  {
    RunKeeps(ss, es, n);
    var g := ss[n].g;
    assert StageAt(g, j) && FinAt(g, k);
    forall k' | 0 <= k' < |g.fin| && (g.fin[k'] == g.fin[k] || g.fin[k'] == j)
      ensures Completed(g.stage[g.fin[k']]) && g.stage[g.fin[k']].k == k'
    {
      assert FinAt(g, k');
    }
  }

  function Rank(st: Stage): nat {
    match st case Queued => 0 case Taken => 1 case Used(_) => 2 case Handled(_) => 3 case Returned(_) => 4
  }

  predicate Advanced(g: History, k: History, j: nat) {
    && g.reqs <= k.reqs && g.fin <= k.fin && g.moved <= k.moved && j < |g.stage| && j < |k.stage|
    && Rank(g.stage[j]) <= Rank(k.stage[j]) <= Rank(g.stage[j]) + 1
    && (Completed(g.stage[j]) ==> Completed(k.stage[j]) && k.stage[j].k == g.stage[j].k)
  }

  lemma ReturnAdvances(s: State, p: nat, j: nat)
    requires Enabled(s, Resume(p)) && ProcsOk(s) && j < |s.g.reqs|
    ensures Advanced(s.g, Apply(s, Resume(p)).g, j)
  {
    assert ProcAt(s, p);
    if s.procs[p].buf !in s.busy { assert ReqAt(s.procs, s.busy, s.g, s.procs[p].j); }
  }

  lemma TakeAdvances(s: State, j: nat)
    requires Enabled(s, Take) && StageOk(s.g) && RingsOk(s.r, s.g) && j < |s.g.reqs|
    ensures Advanced(s.g, Apply(s, Take).g, j)
  {
    Wrapped(s.g.taken, |s.g.reqs|);
    assert StageAt(s.g, s.g.taken);
  }

  lemma CompleteAdvances(s: State, h: nat, j: nat)
    requires Enabled(s, Complete(h)) && PendOk(s.pend, s.g) && j < |s.g.reqs|
    ensures Advanced(s.g, Apply(s, Complete(h)).g, j)
  {
    assert PendAt(s.pend, s.g, h);
  }

  lemma HandleAdvances(s: State, j: nat)
    requires Enabled(s, Handle) && TableOk(s.t, s.g) && StageOk(s.g) && RingsOk(s.r, s.g) && j < |s.g.reqs|
    ensures Advanced(s.g, Apply(s, Handle).g, j)
  {
    var i := UsedEntry(s);
  }

  /** No step revises the past: requests and completions are only added, a request only advances, one stage at
      a time, and keeps its completion number. */
  lemma StepAdvances(s: State, e: Event, j: nat)
    requires Enabled(s, e) && Inv(s) && j < |s.g.reqs|
    ensures Advanced(s.g, Apply(s, e).g, j)
  {
    match e
    case Start(_, _, _, _) =>
    case Wait(_) =>
    case Submit(_, _, _, _) =>
    case Take => TakeAdvances(s, j);
    case Complete(h) => CompleteAdvances(s, h, j);
    case Handle => HandleAdvances(s, j);
    case Resume(p) => ReturnAdvances(s, p, j);
  }

  predicate Since(g: History, k: History, j: nat) {
    && g.reqs <= k.reqs && g.fin <= k.fin && g.moved <= k.moved && j < |g.stage| && j < |k.stage|
    && Rank(g.stage[j]) <= Rank(k.stage[j])
    && (Completed(g.stage[j]) ==> Completed(k.stage[j]) && k.stage[j].k == g.stage[j].k)
  }

  /** Over any stretch of a run no request goes back, is forgotten or is completed again. */
  lemma {:induction false} RunAdvances(ss: seq<State>, es: seq<Event>, i: nat, n: nat, j: nat)
    requires Run(ss, es) && i <= n <= |es| && j < |ss[i].g.reqs|
    ensures Since(ss[i].g, ss[n].g, j)
  {
    if i == n {
      RunKeeps(ss, es, n);
    } else {
      RunAdvances(ss, es, i, n - 1, j);
      RunKeeps(ss, es, n - 1);
      StepAdvances(ss[n - 1], es[n - 1], j);
      SinceStep(ss[i].g, ss[n - 1].g, Apply(ss[n - 1], es[n - 1]).g, j);
      assert ss[n - 1 + 1] == Apply(ss[n - 1], es[n - 1]);
    }
  }

  lemma SinceStep(f: History, g: History, k: History, j: nat)
    requires Since(f, g, j) && Advanced(g, k, j)
    ensures Since(f, k, j)
  {
  }

  // ---------------------------------------------------------------- one call

  /** Process p calls virtio_disk_rw for block blockno with buffer b at event i, and submits at event m. */
  predicate Call(es: seq<Event>, i: nat, m: nat, p: nat, b: nat, blockno: nat, write: bool) {
    && i < m < |es| && es[i] == Start(p, b, blockno, write) && es[m].Submit? && es[m].p == p
    && forall k :: i < k < m ==> !(es[k].Submit? && es[k].p == p)
  }

  predicate StillWants(x: Proc, b: nat, blockno: nat, write: bool) {
    x.Wanting? && x.b == b && x.blockno == blockno && x.write == write
  }

  lemma WantStays(s: State, e: Event, p: nat, b: nat, blockno: nat, write: bool)
    requires Enabled(s, e) && p < |s.procs| && StillWants(s.procs[p], b, blockno, write) && !(e.Submit? && e.p == p)
    ensures p < |Apply(s, e).procs| && StillWants(Apply(s, e).procs[p], b, blockno, write)
  {
  }

  lemma {:induction false} CallStays(ss: seq<State>, es: seq<Event>, i: nat, m: nat, p: nat, b: nat, blockno: nat,
    write: bool, k: nat)
    requires Run(ss, es) && Call(es, i, m, p, b, blockno, write) && i < k <= m
    ensures p < |ss[k].procs| && StillWants(ss[k].procs[p], b, blockno, write)
  {
    assert ss[k - 1 + 1] == Apply(ss[k - 1], es[k - 1]);
    if k == i + 1 {
    } else {
      CallStays(ss, es, i, m, p, b, blockno, write, k - 1);
      WantStays(ss[k - 1], es[k - 1], p, b, blockno, write);
    }
  }

  /** p waits for request j, or that request has returned. */
  ghost predicate WaitsOrDone(s: State, p: nat, j: nat) {
    && p < |s.procs| && j < |s.g.stage|
    && ((s.procs[p].Waiting? && s.procs[p].j == j) || s.g.stage[j].Returned?)
  }

  lemma SubmitWaits(s: State, p: nat, h: nat, d1: nat, d2: nat)
    requires Enabled(s, Submit(p, h, d1, d2)) && |s.g.stage| == |s.g.reqs|
    ensures WaitsOrDone(Apply(s, Submit(p, h, d1, d2)), p, |s.g.reqs|)
  {
  }

  lemma WaitStays(s: State, e: Event, p: nat, j: nat)
    requires Enabled(s, e) && Inv(s) && j < |s.g.reqs| && WaitsOrDone(s, p, j)
    ensures WaitsOrDone(Apply(s, e), p, j)
  {
    StepAdvances(s, e, j);
    if !s.g.stage[j].Returned? && e.Resume? && e.p == p {
      assert ProcAt(s, p) && ReqAt(s.procs, s.busy, s.g, j);
      if s.procs[p].buf !in s.busy { ReturnsHere(s, p); }
    }
  }

  /** A process that goes on returns its request. */
  lemma ReturnsHere(s: State, p: nat)
    requires Enabled(s, Resume(p)) && Inv(s) && s.procs[p].buf !in s.busy
    ensures s.procs[p].j < |Apply(s, Resume(p)).g.stage| && Apply(s, Resume(p)).g.stage[s.procs[p].j].Returned?
  {
    assert ProcAt(s, p) && ReqAt(s.procs, s.busy, s.g, s.procs[p].j);
    StepKeeps(s, Resume(p));
  }

  lemma {:induction false} CallWaits(ss: seq<State>, es: seq<Event>, m: nat, n: nat)
    requires Run(ss, es) && m < n <= |es| && es[m].Submit?
    ensures WaitsOrDone(ss[n], es[m].p, |ss[m].g.reqs|)
  {
    if n == m + 1 {
      FirstWait(ss, es, m);
    } else {
      CallWaits(ss, es, m, n - 1);
      RequestThere(ss, es, m, n - 1);
      NextWait(ss, es, n - 1, es[m].p, |ss[m].g.reqs|);
    }
  }

  lemma FirstWait(ss: seq<State>, es: seq<Event>, m: nat)
    requires Run(ss, es) && m < |es| && es[m].Submit?
    ensures WaitsOrDone(ss[m + 1], es[m].p, |ss[m].g.reqs|)
  {
    RunKeeps(ss, es, m);
    SubmitWaits(ss[m], es[m].p, es[m].h, es[m].d1, es[m].d2);
  }

  lemma RequestThere(ss: seq<State>, es: seq<Event>, m: nat, n: nat)
    requires Run(ss, es) && m < n <= |es| && es[m].Submit?
    ensures |ss[m].g.reqs| < |ss[n].g.reqs|
  {
    assert ss[m + 1] == Apply(ss[m], es[m]);
    RunAdvances(ss, es, m + 1, n, |ss[m].g.reqs|);
  }

  lemma NextWait(ss: seq<State>, es: seq<Event>, k: nat, p: nat, j: nat)
    requires Run(ss, es) && k < |es| && j < |ss[k].g.reqs| && WaitsOrDone(ss[k], p, j)
    ensures WaitsOrDone(ss[k + 1], p, j)
  {
    RunKeeps(ss, es, k);
    WaitStays(ss[k], es[k], p, j);
  }

  /** The request that a call makes is the call. */
  lemma CallRequest(ss: seq<State>, es: seq<Event>, i: nat, m: nat, p: nat, b: nat, blockno: nat, write: bool, n: nat)
    requires Run(ss, es) && Call(es, i, m, p, b, blockno, write) && m < n <= |es|
    ensures |ss[m].g.reqs| < |ss[n].g.reqs|
    ensures Asked(ss[n].g.reqs[|ss[m].g.reqs|]) == Transfer(b, Sector(blockno), write)
  {
    CallStays(ss, es, i, m, p, b, blockno, write, m);
    assert ss[m + 1] == Apply(ss[m], es[m]);
    RunAdvances(ss, es, m + 1, n, |ss[m].g.reqs|);
  }

  /** What a call of virtio_disk_rw comes to, from the events alone: let j be the number of its request. Whenever the
      device completes it, the transfer is between the caller's buffer and the caller's block, in the caller's
      direction; it is completed once at most; and when the process no longer waits for it, it has been completed. */
  lemma CallTransfers(ss: seq<State>, es: seq<Event>, i: nat, m: nat, p: nat, b: nat, blockno: nat, write: bool, n: nat)
    returns (k: nat)
    requires Run(ss, es) && Call(es, i, m, p, b, blockno, write) && m < n <= |es|
    ensures var g, j := ss[n].g, |ss[m].g.reqs|;
      && |g.moved| == |g.fin| && p < |ss[n].procs|
      && (forall c :: 0 <= c < |g.fin| && g.fin[c] == j ==>
        && c == k && g.moved[c].b == b && g.moved[c].write == write
        && (blockno < 0x8000_0000 ==> g.moved[c].sector == 2 * blockno))
      && (!(ss[n].procs[p].Waiting? && ss[n].procs[p].j == j) ==> k < |g.fin| && g.fin[k] == j)
  {
    var g, j := ss[n].g, |ss[m].g.reqs|;
    RunKeeps(ss, es, n);
    CallWaits(ss, es, m, n);
    CallRequest(ss, es, i, m, p, b, blockno, write, n);
    k := if Completed(g.stage[j]) then g.stage[j].k else 0;
    assert StageAt(g, j);
    forall c | 0 <= c < |g.fin| && g.fin[c] == j
      ensures c == k && g.moved[c] == Transfer(b, Sector(blockno), write)
    {
      assert FinAt(g, c);
    }
  }

  /** No lost wakeup: a process asleep for descriptors really lacks them, and some other request is live to
      give them back; a process asleep on its buffer has a request the handler has not seen yet. */
  lemma NoLostWakeup(ss: seq<State>, es: seq<Event>, n: nat, p: nat) returns (j: nat)
    requires Run(ss, es) && n <= |es| && p < |ss[n].procs|
    requires var x := ss[n].procs[p]; (x.Wanting? && x.short) || (x.Waiting? && x.asleep)
    ensures var s, x := ss[n], ss[n].procs[p];
      && |s.g.stage| == |s.g.reqs| && Live(s.g, j)
      && (x.Wanting? ==> Short(s.t.free))
      && (x.Waiting? ==> s.g.reqs[j].p == p && Rank(s.g.stage[j]) < 3)
  {
    RunKeeps(ss, es, n);
    var s := ss[n];
    assert ProcAt(s, p);
    if s.procs[p].Waiting? {
      j := s.procs[p].j;
      assert ReqAt(s.procs, s.busy, s.g, j);
    } else {
      assert SlotOk(s.t.free, s.g, 0) && SlotOk(s.t.free, s.g, 1) && SlotOk(s.t.free, s.g, 2);
      var d := if !s.t.free[0] then 0 else if !s.t.free[1] then 1 else 2;
      j := s.g.own[d];
    }
  }

  // ---------------------------------------------------------------- the code

  /** alloc_desc: the first free descriptor, or -1. */
  method AllocDesc(free: seq<bool>) returns (free': seq<bool>, i: int)
    requires |free| == NUM
    ensures i == -1 ==> free' == free && true !in free
    ensures i != -1 ==> 0 <= i < NUM && free[i] && free' == free[i := false] && true !in free[..i]
  {
    i := 0;
    while i < NUM
      invariant 0 <= i <= NUM && true !in free[..i]
    {
      if free[i] { return free[i := false], i; }
      i := i + 1;
    }
    assert free[..i] == free;
    return free, -1;
  }

  /** free_chain, descriptor by descriptor; None is a panic. */
  method FreeChainFrom(t: Table, h: nat) returns (r: Option<Table>)
    requires TableSized(t)
    ensures r == FreeChain(t, h)
  {
    var u := t;
    var i: nat := h;
    while true
      invariant TableSized(u) && FreeChain(t, h) == FreeChain(u, i)
      decreases Busy(u.free)
    {
      if i >= NUM || u.free[i] { return None; }
      var flag, nxt := u.desc[i].flags, u.desc[i].next;
      ghost var was := u;
      u := u.(desc := u.desc[i := ZERO]);
      u := u.(free := u.free[i := true]);
      assert u == FreeDesc(was, i) && i in Busy(was.free) && i !in Busy(u.free) && Busy(u.free) <= Busy(was.free);
      if flag % 2 != NEXT { return Some(u); }
      i := nxt;
    }
  }

  predicate FreeIsZero(t: Table)
    requires TableSized(t)
  {
    forall d :: 0 <= d < NUM && t.free[d] ==> t.desc[d] == ZERO
  }

  /** The free flags with the descriptors in idx taken out. */
  predicate Without(free: seq<bool>, free': seq<bool>, idx: seq<nat>) {
    && |free| == |free'| == NUM
    && (forall i :: 0 <= i < |idx| ==> idx[i] < NUM && free[idx[i]])
    && (forall i, j :: 0 <= i < j < |idx| ==> idx[i] != idx[j])
    && (forall d :: 0 <= d < NUM ==> free'[d] == (free[d] && d !in idx))
  }

  lemma ThreeFree(free: seq<bool>, free': seq<bool>, idx: seq<nat>)
    requires Without(free, free', idx) && |idx| < 3 && true !in free'
    ensures Short(free)
  {
    forall d | 0 <= d < NUM && free[d] ensures d in idx { assert !free'[d]; }
    assert |idx| == 2 ==> forall d :: d in idx ==> d == idx[0] || d == idx[1];
    assert |idx| == 1 ==> forall d :: d in idx ==> d == idx[0];
  }

  /** alloc3_desc: three free descriptors, or none taken and the table as before. `woke` says that giving
      descriptors back has called wakeup. */
  method Alloc3(t: Table) returns (u: Table, idx: seq<nat>, woke: bool)
    requires TableSized(t) && FreeIsZero(t)
    ensures |idx| == 3 ==> !woke && u == t.(free := u.free) && Without(t.free, u.free, idx)
    ensures |idx| != 3 ==> u == t && Short(t.free) && (woke <==> true in t.free)
  {
    u, idx, woke := t, [], false;
    while |idx| < 3
      invariant |idx| <= 3 && u == t.(free := u.free) && Without(t.free, u.free, idx) && !woke
      decreases 3 - |idx|
    {
      var free, i := AllocDesc(u.free);
      if i < 0 {
        ThreeFree(t.free, u.free, idx);
        u := GiveBack(t, u, idx);
        woke := |idx| > 0;
        assert |idx| > 0 ==> t.free[idx[0]];
        assert |idx| == 0 ==> u.free == t.free;
        return;
      }
      u := u.(free := free);
      idx := idx + [i];
    }
  }

  method GiveBack(t: Table, taken: Table, idx: seq<nat>) returns (u: Table)
    requires TableSized(t) && FreeIsZero(t) && taken == t.(free := taken.free) && Without(t.free, taken.free, idx)
    ensures u == t
  {
    u := taken;
    var j := 0;
    while j < |idx|
      invariant 0 <= j <= |idx| && u == t.(free := u.free) && |u.free| == NUM
      invariant forall d :: 0 <= d < NUM ==> u.free[d] == (t.free[d] && d !in idx[j..])
    {
      assert idx[j] < NUM && t.free[idx[j]];
      assert t.desc[idx[j] := ZERO] == t.desc;
      assert idx[j..] == [idx[j]] + idx[j + 1..];
      u := u.(desc := u.desc[idx[j] := ZERO]);
      u := u.(free := u.free[idx[j] := true]);
      j := j + 1;
    }
    assert u.free == t.free;
  }

  /** Filling in the chain for request q. */
  method Format(t: Table, q: Request) returns (u: Table)
    requires TableSized(t) && Slots(q) && !t.free[q.h] && !t.free[q.d1] && !t.free[q.d2]
    ensures u == Formatted(t, q)
  {
    u := t.(ops := t.ops[q.h := Op(q.write, Sector(q.blockno))]);
    u := u.(desc := u.desc[q.h := Desc(OpAt(q.h), 16, NEXT, q.d1)]);
    var flags := if q.write then 0 else WRITE;
    u := u.(desc := u.desc[q.d1 := Desc(DataOf(q.b), BSIZE, flags + NEXT, q.d2)]);
    u := u.(info := u.info[q.h := u.info[q.h].(status := BUSY)]);
    u := u.(desc := u.desc[q.d2 := Desc(StatusAt(q.h), 1, WRITE, 0)]);
    u := u.(info := u.info[q.h := u.info[q.h].(b := Some(q.b))]);
    assert t.free == t.free[q.h := false][q.d1 := false][q.d2 := false];
  }

  lemma TakenThree(free: seq<bool>, free': seq<bool>, idx: seq<nat>)
    requires Without(free, free', idx) && |idx| == 3
    ensures free' == free[idx[0] := false][idx[1] := false][idx[2] := false]
  {
    assert forall d :: d in idx <==> d == idx[0] || d == idx[1] || d == idx[2];
  }

  /** The handler's exit test: equal 16-bit indices mean that all completions have been seen. */
  lemma AllHandled(s: State)
    requires Inv(s) && s.r.seen == s.r.usedIdx
    ensures s.g.handled == |s.g.fin|
  {
    UsedFit(s.t.free, s.g);
    Wrapped(s.g.handled, |s.g.fin|);
  }

  /** What virtio_disk_rw does under the lock once it has three descriptors is the step. */
  lemma SubmitIs(s: State, p: nat, free: seq<bool>, idx: seq<nat>)
    requires Sized(s) && !s.panicked && p < |s.procs| && s.procs[p].Wanting? && !s.procs[p].short
    requires |idx| == 3 && Without(s.t.free, free, idx)
    ensures Enabled(s, Submit(p, idx[0], idx[1], idx[2]))
    ensures free == s.t.free[idx[0] := false][idx[1] := false][idx[2] := false]
  {
    TakenThree(s.t.free, free, idx);
  }

  /** The driver: disk and its sleepers. The device's own state (took, pend) is ghost. */
  class Driver {
    var t: Table
    var avail: seq<nat>
    var availIdx: nat
    var used: seq<nat>
    var usedIdx: nat
    var seen: nat
    var procs: seq<Proc>
    var busy: set<nat>  // the buffers with b->disk == 1
    ghost var took: nat
    ghost var pend: set<nat>
    var g: History      // no decision depends on it

    ghost function Abs(): State
      reads this
    {
      State(t, Rings(avail, availIdx, took, used, usedIdx, seen), g, procs, busy, pend, false)
    }

    constructor (nproc: nat)
      ensures Init(Abs()) && |procs| == nproc
    {
      t := Table(seq(NUM, _ => true), seq(NUM, _ => ZERO), seq(NUM, _ => Op(false, 0)), seq(NUM, _ => Info(None, 0)));
      avail, availIdx, used, usedIdx, seen := seq(NUM, _ => 0), 0, seq(NUM, _ => 0), 0, 0;
      procs := seq(nproc, _ => Idle);
      busy, took, pend := {}, 0, {};
      g := History([], [], 0, [], 0, seq(NUM, _ => -1), []);
    }

    /** wakeup(&disk.free[0]). */
    method WakeupShort()
      modifies this`procs
      ensures procs == WakeAllShort(old(procs))
    {
      var p := 0;
      while p < |procs|
        invariant 0 <= p <= |procs| == |old(procs)|
        invariant forall i :: 0 <= i < p ==> procs[i] == WakeShort(old(procs)[i])
        invariant forall i :: p <= i < |procs| ==> procs[i] == old(procs)[i]
      {
        var x := procs[p];
        if x.Wanting? && x.short { procs := procs[p := x.(short := false)]; }
        p := p + 1;
      }
    }

    /** wakeup(b). */
    method Wakeup(b: nat)
      modifies this`procs
      ensures procs == WakeAll(old(procs), b)
    {
      var p := 0;
      while p < |procs|
        invariant 0 <= p <= |procs| == |old(procs)|
        invariant forall i :: 0 <= i < p ==> procs[i] == Wake(old(procs)[i], b)
        invariant forall i :: p <= i < |procs| ==> procs[i] == old(procs)[i]
      {
        var x := procs[p];
        if x.Waiting? && x.buf == b && x.asleep { procs := procs[p := x.(asleep := false)]; }
        p := p + 1;
      }
    }

    /** virtio_disk_rw with its descriptors idx at hand: hand the request to the device and sleep on the buffer. */
    method Send(p: nat, u: Table, idx: seq<nat>)
      requires p < |procs| && procs[p].Wanting? && !procs[p].short && Sized(Abs()) && |idx| == 3
      requires u == t.(free := u.free) && Without(t.free, u.free, idx)
      modifies this
      ensures Enabled(old(Abs()), Submit(p, idx[0], idx[1], idx[2]))
      ensures Abs() == Apply(old(Abs()), Submit(p, idx[0], idx[1], idx[2]))
    {
      var x := procs[p];
      var q := Request(p, x.b, x.blockno, x.write, idx[0], idx[1], idx[2]);
      SubmitIs(Abs(), p, u.free, idx);
      t := Format(u, q);
      assert t == Formatted(old(t), q);
      busy := busy + {x.b};
      avail := avail[availIdx % NUM := idx[0]];
      availIdx := (availIdx + 1) % WRAP;
      procs := procs[p := Waiting(|g.reqs|, x.b, idx[0], true)];
      g := Submitted(g, q);
    }

    /** virtio_disk_rw from its lock, or from waking up without descriptors, to its next sleep. */
    method Attempt(p: nat) returns (e: Event)
      requires Sized(Abs()) && TableOk(t, g) && p < |procs| && procs[p].Wanting? && !procs[p].short
      modifies this
      ensures e == Wait(p) || (e.Submit? && e.p == p)
      ensures Enabled(old(Abs()), e) && Abs() == Apply(old(Abs()), e)
    {
      var u, idx, woke := Alloc3(t);
      if |idx| != 3 {
        if woke { WakeupShort(); }
        procs := procs[p := procs[p].(short := true)];
        return Wait(p);
      }
      Send(p, u, idx);
      e := Submit(p, idx[0], idx[1], idx[2]);
    }

    /** The end of virtio_disk_rw: a process woken on its buffer sleeps again, or frees its chain and returns. */
    method Resume(p: nat)
      requires Inv(Abs()) && p < |procs| && procs[p].Waiting? && !procs[p].asleep
      modifies this
      ensures Abs() == Apply(old(Abs()), Event.Resume(p))
    {
      var x := procs[p];
      assert ProcAt(Abs(), p);
      StepKeeps(Abs(), Event.Resume(p));
      if x.buf in busy {
        procs := procs[p := x.(asleep := true)];
        return;
      }
      var u := t.(info := t.info[x.h := t.info[x.h].(b := None)]);
      var r := FreeChainFrom(u, x.h);
      t := r.value;
      WakeupShort();
      procs := procs[p := Idle];
      g := Finished(g, x.j);
    }

    /** One turn of the loop in virtio_disk_intr. */
    method HandleOne()
      requires Inv(Abs()) && seen != usedIdx
      modifies this
      ensures Abs() == Apply(old(Abs()), Handle)
      ensures g.handled == old(g.handled) + 1 && g.fin == old(g.fin) && t == old(t)
    {
      ghost var j := UsedEntry(Abs());
      var id := used[seen % NUM];
      var b := t.info[id].b.value;
      busy := busy - {b};
      Wakeup(b);
      seen := (seen + 1) % WRAP;
      g := g.(stage := Put(g.stage, g.fin[g.handled], Handled(g.handled)), handled := g.handled + 1);
    }

    /** The same, with the invariant that it keeps. */
    method HandleNext()
      requires Inv(Abs()) && seen != usedIdx
      modifies this
      ensures Inv(Abs()) && Abs() == Apply(old(Abs()), Handle)
      ensures g.handled == old(g.handled) + 1 && g.fin == old(g.fin) && t == old(t)
    {
      HandleKeeps(Abs());
      HandleOne();
    }

    /** virtio_disk_intr: after it every completion the device had posted is handled, and no buffer of a
        completed request is busy. */
    method Intr()
      requires Inv(Abs())
      modifies this
      ensures Inv(Abs()) && g.handled == |g.fin| && g.fin == old(g.fin) && t == old(t)
      ensures Abs() == HandledMany(old(Abs()), |g.fin| - old(g.handled))
    {
      ghost var n := 0;
      while seen != usedIdx
        invariant Inv(Abs()) && g.fin == old(g.fin) && g.handled == old(g.handled) + n && t == old(t)
        invariant Abs() == HandledMany(old(Abs()), n)
        decreases |g.fin| - g.handled
      {
        ghost var j := UsedEntry(Abs());
        HandleNext();
        n := n + 1;
      }
      AllHandled(Abs());
    }
  }

  /** n turns of the loop in virtio_disk_intr. */
  ghost function HandledMany(s: State, n: nat): State {
    if n == 0 then s else
    var u := HandledMany(s, n - 1);
    if Enabled(u, Handle) then Apply(u, Handle) else u
  }
}
