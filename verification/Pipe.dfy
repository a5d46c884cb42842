/** Pipes (kernel/pipe.c) with sleep and wakeup (kernel/proc.c). The code from taking pi->lock to giving
    it up, by returning or by sleeping, is one step. User copies succeed. */
module Pipe {
  import opened Basics

  const PIPESIZE: nat := 512
  const WRAP: nat := 0x1_0000_0000  // nread and nwrite are 32-bit counters

  /** A process as far as one pipe is concerned: inside pipewrite with i bytes of src written, inside
      piperead asking for n bytes, or returned with a result. */
  datatype Proc = Idle | Writer(src: seq<Byte>, i: int, blocked: bool) | Reader(n: nat,
    asleep: bool) | Done(result: int)

  /** `written` and `read` are all bytes ever put into and taken out of the pipe. */
  datatype State = State(written: seq<Byte>, read: seq<Byte>, readopen: bool, writeopen: bool, procs: seq<Proc>)

  /** Rouse, Cut and Leave are what being killed does: a sleeper is made runnable, a writer returns -1 when it
      notices after k more bytes, a reader that would have slept returns -1. */
  datatype Event =
    | StartWrite(p: nat, src: seq<Byte>) | StartRead(p: nat, n: nat) | Run(p: nat)
    | CloseWrite | CloseRead
    | Rouse(p: nat) | Cut(p: nat, k: nat) | Leave(p: nat)

  function Min(a: int, b: int): int { if a < b then a else b }

  function Slice(b: seq<Byte>, i: int, k: int): seq<Byte> { if 0 <= i <= i + k <= |b| then b[i..i + k] else [] }

  function Held(s: State): int { |s.written| - |s.read| }

  function WakeReader(x: Proc): Proc { if x.Reader? then x.(asleep := false) else x }

  function WakeWriter(x: Proc): Proc { if x.Writer? then x.(blocked := false) else x }

  function WakeReaders(procs: seq<Proc>): (r: seq<Proc>)
    ensures |r| == |procs| && forall i :: 0 <= i < |r| ==> r[i] == WakeReader(procs[i])
  {
    seq(|procs|, i requires 0 <= i < |procs| => WakeReader(procs[i]))
  }

  function WakeWriters(procs: seq<Proc>): (r: seq<Proc>)
    ensures |r| == |procs| && forall i :: 0 <= i < |r| ==> r[i] == WakeWriter(procs[i])
  {
    seq(|procs|, i requires 0 <= i < |procs| => WakeWriter(procs[i]))
  }

  predicate Free(x: Proc) { x.Idle? || x.Done? }

  predicate RunnableWriter(x: Proc) { x.Writer? && !x.blocked }

  predicate RunnableReader(x: Proc) { x.Reader? && !x.asleep }

  /** Bytes the next section of a writer can put in. */
  function Room(s: State, x: Proc): int
    requires x.Writer?
  {
    Min(|x.src| - x.i, PIPESIZE - Held(s))
  }

  /** An end is closed when no process has it open, so no process is using it. */
  predicate Enabled(s: State, e: Event) {
    match e
    case StartWrite(p, _) => p < |s.procs| && Free(s.procs[p]) && s.writeopen
    case StartRead(p, _) => p < |s.procs| && Free(s.procs[p]) && s.readopen
    case Run(p) => p < |s.procs| && (RunnableWriter(s.procs[p]) || RunnableReader(s.procs[p]))
    case CloseWrite => s.writeopen && forall p :: 0 <= p < |s.procs| ==> !s.procs[p].Writer?
    case CloseRead => s.readopen && forall p :: 0 <= p < |s.procs| ==> !s.procs[p].Reader?
    case Rouse(p) => p < |s.procs| && !Free(s.procs[p])
    case Cut(p, k) =>
      && p < |s.procs| && RunnableWriter(s.procs[p]) && s.procs[p].i + k < |s.procs[p].src|
      && k <= Room(s, s.procs[p]) && (k > 0 ==> s.readopen)
    case Leave(p) => p < |s.procs| && RunnableReader(s.procs[p]) && Held(s) == 0 && s.writeopen
  }

  /** pipewrite from acquire or from waking up to return or sleep. */
  function RunWriter(s: State, p: nat): State
    requires p < |s.procs| && s.procs[p].Writer?
  {
    var w := s.procs[p];
    if w.i < |w.src| && !s.readopen then s.(procs := s.procs[p := Done(-1)])
    else
      var k := Room(s, w);
      var x := if w.i + k == |w.src| then Done(|w.src|) else Writer(w.src, w.i + k, true);
      s.(written := s.written + Slice(w.src, w.i, k), procs := WakeReaders(s.procs)[p := x])
  }

  /** piperead from acquire or from waking up to return or sleep. */
  function RunReader(s: State, p: nat): State
    requires p < |s.procs| && s.procs[p].Reader?
  {
    if Held(s) == 0 && s.writeopen then s.(procs := s.procs[p := s.procs[p].(asleep := true)])
    else
      var k := Min(s.procs[p].n, Held(s));
      s.(read := s.read + Slice(s.written, |s.read|, k), procs := WakeWriters(s.procs)[p := Done(k)])
  }

  function Apply(s: State, e: Event): State
    requires Enabled(s, e)
  {
    match e
    case StartWrite(p, src) => s.(procs := s.procs[p := Writer(src, 0, false)])
    case StartRead(p, n) => s.(procs := s.procs[p := Reader(n, false)])
    case Run(p) => if s.procs[p].Writer? then RunWriter(s, p) else RunReader(s, p)
    case CloseWrite => s.(writeopen := false, procs := WakeReaders(s.procs))
    case CloseRead => s.(readopen := false, procs := WakeWriters(s.procs))
    case Rouse(p) => s.(procs := s.procs[p := WakeReader(WakeWriter(s.procs[p]))])
    case Cut(p, k) =>
      var w := s.procs[p];
      s.(written := s.written + Slice(w.src, w.i, k), procs := s.procs[p := Done(-1)])
    case Leave(p) => s.(procs := s.procs[p := Done(-1)])
  }

  /** What was read is a prefix of what was written, and at most PIPESIZE bytes are between. */
  predicate DataOk(s: State) { s.read <= s.written && Held(s) <= PIPESIZE }

  predicate ProcOk(x: Proc) { x.Writer? ==> 0 <= x.i <= |x.src| }

  predicate ProcsOk(s: State) { forall p :: 0 <= p < |s.procs| ==> ProcOk(s.procs[p]) }

  predicate SleeperOk(s: State, x: Proc) {
    && (x.Writer? && x.blocked ==> Held(s) == PIPESIZE && s.readopen)
    && (x.Reader? && x.asleep ==> Held(s) == 0 && s.writeopen)
  }

  /** A sleeping reader means an empty pipe that may still be written, a sleeping writer a full pipe
      that may still be read: nobody sleeps who could go on. */
  predicate SleepOk(s: State) { forall p :: 0 <= p < |s.procs| ==> SleeperOk(s, s.procs[p]) }

  /** A killed writer leaves bytes behind although a reader sleeps. */
  predicate Unheard(s: State, e: Event) {
    e.Cut? && e.k > 0 && exists q :: 0 <= q < |s.procs| && s.procs[q].Reader? && s.procs[q].asleep
  }

  lemma DataKept(s: State, e: Event)
    requires DataOk(s) && ProcsOk(s) && Enabled(s, e)
    ensures DataOk(Apply(s, e)) && ProcsOk(Apply(s, e))
    ensures s.written <= Apply(s, e).written && s.read <= Apply(s, e).read
  {
    var t := Apply(s, e);
    if e.Run? || e.Cut? { assert ProcOk(s.procs[e.p]); }
    forall q | 0 <= q < |t.procs| ensures ProcOk(t.procs[q]) {
      assert ProcOk(s.procs[q]);
    }
  }

  /** A step keeps every sleeper justified unless it is a killed writer that leaves bytes and wakes nobody;
      and that step never does when a reader sleeps. */
  lemma SleepKept(s: State, e: Event)
    requires DataOk(s) && ProcsOk(s) && SleepOk(s) && Enabled(s, e)
    ensures SleepOk(Apply(s, e)) <==> !Unheard(s, e)
  {
    var t := Apply(s, e);
    if Unheard(s, e) {
      var q :| 0 <= q < |s.procs| && s.procs[q].Reader? && s.procs[q].asleep;
      assert SleeperOk(s, s.procs[q]) && t.procs[q] == s.procs[q];
      assert !SleeperOk(t, t.procs[q]);
    } else {
      if e.Run? || e.Cut? { assert ProcOk(s.procs[e.p]) && SleeperOk(s, s.procs[e.p]); }
      forall q | 0 <= q < |t.procs| ensures SleeperOk(t, t.procs[q]) {
        assert SleeperOk(s, s.procs[q]);
      }
    }
  }

  // ---------------------------------------------------------------- whole runs

  ghost predicate Init(s: State) {
    && s.written == s.read == [] && s.readopen && s.writeopen
    && forall p :: 0 <= p < |s.procs| ==> s.procs[p] == Idle
  }

  ghost predicate IsRun(ss: seq<State>, es: seq<Event>) {
    && |ss| == |es| + 1 && Init(ss[0])
    && forall i :: 0 <= i < |es| ==> Enabled(ss[i], es[i]) && ss[i + 1] == Apply(ss[i], es[i])
  }

  lemma {:induction false} RunOk(ss: seq<State>, es: seq<Event>, k: nat)
    requires IsRun(ss, es) && k <= |es|
    ensures DataOk(ss[k]) && ProcsOk(ss[k])
  {
    if k == 0 {
    } else {
      RunOk(ss, es, k - 1);
      DataKept(ss[k - 1], es[k - 1]);
      assert ss[k - 1 + 1] == Apply(ss[k - 1], es[k - 1]);
    }
  }

  /** Bytes come out in the order they went in, each once: on every run, killed processes included, all that
      is ever read by step k is a prefix of all that is written by then, at most PIPESIZE bytes behind, and
      neither history is ever revised. */
  lemma {:induction false} ReadIsPrefix(ss: seq<State>, es: seq<Event>, j: nat, k: nat)
    requires IsRun(ss, es) && j <= k <= |es|
    ensures ss[k].read <= ss[k].written && Held(ss[k]) <= PIPESIZE
    ensures ss[j].read <= ss[k].read && ss[j].written <= ss[k].written
  {
    RunOk(ss, es, k);
    if j < k {
      ReadIsPrefix(ss, es, j, k - 1);
      var s, e, t := ss[k - 1], es[k - 1], ss[k];
      assert s.read <= t.read && s.written <= t.written by {
        RunOk(ss, es, k - 1);
        DataKept(s, e);
        assert ss[k - 1 + 1] == Apply(s, e);
      }
    }
  }

  // ---------------------------------------------------------------- one call

  /** What step k put into the pipe. */
  ghost function Added(ss: seq<State>, k: nat): seq<Byte>
    requires k + 1 < |ss|
  {
    if ss[k].written <= ss[k + 1].written then ss[k + 1].written[|ss[k].written|..] else []
  }

  /** Process p runs inside the pipe code. */
  predicate By(e: Event, p: nat) { (e.Run? || e.Cut?) && e.p == p }

  /** All that p put into the pipe after event i and before event n, in order. */
  ghost function PutBy(ss: seq<State>, es: seq<Event>, p: nat, i: nat, n: nat): seq<Byte>
    requires |ss| == |es| + 1 && n <= |es|
  {
    if n <= i + 1 then []
    else PutBy(ss, es, p, i, n - 1) + if By(es[n - 1], p) then Added(ss, n - 1) else []
  }

  /** p calls pipewrite(src) at event i, and makes no other call before event n. */
  predicate Writing(es: seq<Event>, i: nat, n: nat, p: nat, src: seq<Byte>) {
    && i < n <= |es| && es[i] == StartWrite(p, src)
    && forall k :: i < k < n ==> !((es[k].StartWrite? || es[k].StartRead?) && es[k].p == p)
  }

  /** Event k made pipewrite give up: p found the read end closed, or noticed that it was killed. */
  predicate GaveUp(ss: seq<State>, es: seq<Event>, p: nat, k: nat) {
    && k < |es| && k < |ss|
    && ((es[k] == Run(p) && !ss[k].readopen) || (es[k].Cut? && es[k].p == p))
  }

  /** Where the call stands: what p has put in is the part of src before i, and all of it when it returned |src|. */
  ghost predicate Stands(x: Proc, src: seq<Byte>, put: seq<Byte>) {
    && put <= src
    && (x.Writer? ==> x.src == src && 0 <= x.i <= |src| && put == src[..x.i])
    && (x.Writer? || (x.Done? && (x.result == -1 || (x.result == |src| && put == src))))
  }

  lemma OtherStands(s: State, e: Event, p: nat, src: seq<Byte>, put: seq<Byte>)
    requires Enabled(s, e) && p < |s.procs| && Stands(s.procs[p], src, put) && !By(e, p)
    requires !((e.StartWrite? || e.StartRead?) && e.p == p)
    ensures p < |Apply(s, e).procs| && Stands(Apply(s, e).procs[p], src, put)
    ensures Apply(s, e).procs[p].Done? ==> s.procs[p].Done? && s.procs[p].result == Apply(s, e).procs[p].result
  {
  }

  lemma OwnStands(s: State, e: Event, p: nat, src: seq<Byte>, put: seq<Byte>)
    requires DataOk(s) && ProcsOk(s) && Enabled(s, e) && p < |s.procs| && Stands(s.procs[p], src, put) && By(e, p)
    ensures s.written <= Apply(s, e).written && p < |Apply(s, e).procs|
    ensures Stands(Apply(s, e).procs[p], src, put + Apply(s, e).written[|s.written|..])
    ensures Apply(s, e).procs[p].Done? && Apply(s, e).procs[p].result == -1 && src != [] ==>
      (e == Run(p) && !s.readopen) || e.Cut?
  {
    assert s.procs[p].Writer? && ProcOk(s.procs[p]);
  }

  /** What one call of pipewrite comes to, over every run and from the events alone: the bytes that the process put in
      are a prefix of src, in order and once, whatever others did in between; a result of at least 0 is |src| and means
      all of src; and -1 comes only with the read end closed or after a kill. */
  lemma {:induction false} WriteIsSource(ss: seq<State>, es: seq<Event>, i: nat, n: nat, p: nat, src: seq<Byte>)
    requires IsRun(ss, es) && Writing(es, i, n, p, src)
    ensures p < |ss[n].procs| && Stands(ss[n].procs[p], src, PutBy(ss, es, p, i, n))
    ensures ss[n].procs[p].Done? && ss[n].procs[p].result == -1 ==> exists k :: i < k < n && GaveUp(ss, es, p, k)
  {
    var s, e := ss[n - 1], es[n - 1];
    assert ss[n - 1 + 1] == Apply(s, e);
    if n == i + 1 {
    } else {
      WriteIsSource(ss, es, i, n - 1, p, src);
      var put := PutBy(ss, es, p, i, n - 1);
      if By(e, p) {
        RunOk(ss, es, n - 1);
        OwnStands(s, e, p, src, put);
        if ss[n].procs[p].Done? && ss[n].procs[p].result == -1 { assert GaveUp(ss, es, p, n - 1); }
      } else {
        OtherStands(s, e, p, src, put);
      }
    }
  }

  /** Only writers put bytes in. */
  lemma OnlyWritersWrite(s: State, e: Event)
    requires DataOk(s) && ProcsOk(s) && Enabled(s, e) && Apply(s, e).written != s.written
    ensures (e.Run? || e.Cut?) && s.procs[e.p].Writer?
  {
  }

  /** What one turn of piperead comes to: it sleeps only on an empty pipe that may still be written, and otherwise
      returns the next bytes of the pipe, as many as it asked for or all there are. */
  lemma ReadGets(s: State, p: nat)
    requires DataOk(s) && Enabled(s, Run(p)) && s.procs[p].Reader?
    ensures var t, n := Apply(s, Run(p)), s.procs[p].n;
      && t.written == s.written && s.read <= t.read <= s.written
      && (t.procs[p].Reader? ==>
        t.procs[p] == Reader(n, true) && t.read == s.read && s.read == s.written && s.writeopen)
      && (!t.procs[p].Reader? ==>
        && t.procs[p] == Done(|t.read| - |s.read|) && |t.read| - |s.read| <= n
        && (|t.read| - |s.read| < n ==> t.read == s.written) && (t.read == s.read && n > 0 ==> !s.writeopen))
  {
  }

  lemma {:induction false} SleepersOk(ss: seq<State>, es: seq<Event>, k: nat)
    requires IsRun(ss, es) && k <= |es|
    requires forall i :: 0 <= i < k ==> !Unheard(ss[i], es[i])
    ensures SleepOk(ss[k])
  {
    if k == 0 {
    } else {
      SleepersOk(ss, es, k - 1);
      RunOk(ss, es, k - 1);
      SleepKept(ss[k - 1], es[k - 1]);
      assert ss[k - 1 + 1] == Apply(ss[k - 1], es[k - 1]);
    }
  }

  /** No lost wakeup, unless a killed writer left bytes unheard: a sleeping reader sleeps on an empty pipe that
      may still be written, a sleeping writer on a full one that may still be read, so never both. */
  lemma NoLostWakeup(ss: seq<State>, es: seq<Event>, k: nat, p: nat, q: nat)
    requires IsRun(ss, es) && k <= |es| && p < |ss[k].procs| && q < |ss[k].procs|
    requires forall i :: 0 <= i < k ==> !Unheard(ss[i], es[i])
    ensures var s := ss[k];
      && (s.procs[p].Reader? && s.procs[p].asleep ==> s.written == s.read && s.writeopen)
      && (s.procs[q].Writer? && s.procs[q].blocked ==> Held(s) == PIPESIZE && s.readopen)
      && !(s.procs[p].Reader? && s.procs[p].asleep && s.procs[q].Writer? && s.procs[q].blocked)
  {
    SleepersOk(ss, es, k);
    RunOk(ss, es, k);
    assert SleeperOk(ss[k], ss[k].procs[p]) && SleeperOk(ss[k], ss[k].procs[q]);
  }

  /** A killed writer does lose a wakeup: a reader sleeps, a writer puts in one byte of two, notices that it was
      killed and returns without waking anybody. The reader sleeps beside a byte it could have. */
  lemma KilledWriterLosesWakeup() returns (ss: seq<State>, es: seq<Event>)
    ensures IsRun(ss, es)
    ensures var s := ss[|es|]; s.procs == [Reader(1, true), Done(-1)] && s.writeopen && Held(s) == 1
  {
    es := [StartRead(0, 1), Run(0), StartWrite(1, [7, 8]), Cut(1, 1)];
    var s0 := State([], [], true, true, [Idle, Idle]);
    var s1 := Apply(s0, es[0]);
    var s2 := Apply(s1, es[1]);
    var s3 := Apply(s2, es[2]);
    var s4 := Apply(s3, es[3]);
    ss := [s0, s1, s2, s3, s4];
    assert s4.procs == [Reader(1, true), Done(-1)];
  }

  // ---------------------------------------------------------------- the code

  /** The ring holds the bytes written and not yet read. */
  predicate Ring(data: seq<Byte>, written: seq<Byte>, from: nat) {
    |data| == PIPESIZE && forall j :: from <= j < |written| ==> data[j % PIPESIZE] == written[j]
  }

  lemma RingPut(data: seq<Byte>, written: seq<Byte>, from: nat, ch: Byte)
    requires Ring(data, written, from) && from <= |written| < from + PIPESIZE
    ensures Ring(data[|written| % PIPESIZE := ch], written + [ch], from)
  {
    forall j | from <= j < |written| ensures j % PIPESIZE != |written| % PIPESIZE {
      // two positions less than PIPESIZE apart have different slots
    }
  }

  /** Wrapped 32-bit counters still tell the ring index, full and empty. */
  lemma SlotOf(x: nat)
    ensures (x % WRAP) % PIPESIZE == x % PIPESIZE
  {
    var q := x / WRAP;
    assert x == q * WRAP + x % WRAP;
    assert x == PIPESIZE * (q * (WRAP / PIPESIZE)) + x % WRAP;
  }

  /** Adding to a wrapped counter is adding to the counter. */
  lemma Later(x: nat, n: nat)
    requires n <= PIPESIZE
    ensures (x % WRAP + n) % WRAP == (x + n) % WRAP
  {
    var q, r := x / WRAP, x % WRAP;
    assert x == q * WRAP + r;
    assert r + n >= WRAP ==> x + n == (q + 1) * WRAP + (r + n - WRAP);
    assert r + n < WRAP ==> x + n == q * WRAP + (r + n);
  }

  lemma SameCount(x: nat, y: nat)
    requires x <= y <= x + PIPESIZE
    ensures x % WRAP == y % WRAP <==> x == y
  {
    assert y - x == (y / WRAP - x / WRAP) * WRAP + (y % WRAP - x % WRAP);
  }

  lemma Counters(r: nat, w: nat)
    requires r <= w <= r + PIPESIZE
    ensures (r % WRAP) % PIPESIZE == r % PIPESIZE
    ensures (r % WRAP + PIPESIZE) % WRAP == w % WRAP <==> w == r + PIPESIZE
    ensures r % WRAP == w % WRAP <==> r == w
    ensures (r % WRAP + 1) % WRAP == (r + 1) % WRAP
  {
    SlotOf(r);
    Later(r, 1);
    Later(r, PIPESIZE);
    SameCount(r, w);
    SameCount(w, r + PIPESIZE);
  }

  class PipeObject {
    const data: array<Byte>
    var nread: nat
    var nwrite: nat
    var readopen: bool
    var writeopen: bool
    var procs: seq<Proc>  // who is in pipewrite or piperead, and asleep or not
    ghost var written: seq<Byte>
    ghost var read: seq<Byte>

    ghost predicate Valid()
      reads this, data
    {
      && nread == |read| % WRAP && nwrite == |written| % WRAP
      && |read| <= |written| <= |read| + PIPESIZE
      && Ring(data[..], written, |read|)
    }

    ghost function Abs(): State
      reads this
    {
      State(written, read, readopen, writeopen, procs)
    }

    constructor (nproc: nat)
      ensures Valid() && Init(Abs()) && |procs| == nproc && fresh(data)
    {
      data := new Byte[PIPESIZE](_ => 0);
      nread, nwrite, readopen, writeopen := 0, 0, true, true;
      procs := seq(nproc, _ => Idle);
      written, read := [], [];
    }

    /** wakeup(&pi->nread) and wakeup(&pi->nwrite): the loop over the process table. */
    method Wakeup(readers: bool)
      modifies this`procs
      ensures procs == if readers then WakeReaders(old(procs)) else WakeWriters(old(procs))
    {
      var p := 0;
      while p < |procs|
        invariant 0 <= p <= |procs| == |old(procs)|
        invariant forall i :: 0 <= i < p ==>
          procs[i] == if readers then WakeReader(old(procs)[i]) else WakeWriter(old(procs)[i])
        invariant forall i :: p <= i < |procs| ==> procs[i] == old(procs)[i]
      {
        var x := procs[p];
        if readers && x.Reader? && x.asleep {
          procs := procs[p := Reader(x.n, false)];
        } else if !readers && x.Writer? && x.blocked {
          procs := procs[p := Writer(x.src, x.i, false)];
        }
        p := p + 1;
      }
    }

    /** One byte into the ring. */
    method Put(ch: Byte)
      requires Valid() && |written| < |read| + PIPESIZE
      modifies this`nwrite, this`written, data
      ensures Valid() && written == old(written) + [ch]
    {
      RingPut(data[..], written, |read|, ch);
      Counters(|written|, |written|);
      data[nwrite % PIPESIZE] := ch;
      assert data[..] == old(data[..])[|written| % PIPESIZE := ch];
      nwrite := (nwrite + 1) % WRAP;
      written := written + [ch];
    }

    /** One byte out of the ring. */
    method Get() returns (ch: Byte)
      requires Valid() && |read| < |written|
      modifies this`nread, this`read
      ensures Valid() && ch == written[|old(read)|] && read == old(read) + [ch]
    {
      Counters(|read|, |written|);
      ch := data[nread % PIPESIZE];
      assert data[..][|read| % PIPESIZE] == ch;
      nread := (nread + 1) % WRAP;
      read := read + [ch];
    }

    method Full() returns (b: bool)
      requires Valid()
      ensures b <==> |written| == |read| + PIPESIZE
    {
      Counters(|read|, |written|);
      b := nwrite == (nread + PIPESIZE) % WRAP;
    }

    method Empty() returns (b: bool)
      requires Valid()
      ensures b <==> |written| == |read|
    {
      Counters(|read|, |written|);
      b := nread == nwrite;
    }

    /** pipewrite's copying: until all of src is in or the ring is full. */
    method Fill(src: seq<Byte>, start: nat) returns (i: nat)
      requires Valid() && start <= |src|
      modifies this`nwrite, this`written, data
      ensures Valid()
      ensures i == start + Min(|src| - start, PIPESIZE - (|old(written)| - |read|))
      ensures written == old(written) + src[start..i]
    {
      i := start;
      while i < |src|
        invariant Valid() && start <= i <= |src|
        invariant written == old(written) + src[start..i]
      {
        var full := Full();
        if full { return; }
        Put(src[i]);
        i := i + 1;
      }
    }

    /** piperead's copying: n bytes or all there are. */
    method Drain(n: nat) returns (out: seq<Byte>)
      requires Valid()
      modifies this`nread, this`read
      ensures Valid()
      ensures out == Slice(written, |old(read)|, Min(n, |written| - |old(read)|))
      ensures read == old(read) + out
    {
      out := [];
      while |out| < n
        invariant Valid() && |out| <= n && read == old(read) + out
        invariant |old(read)| + |out| <= |written| && out == written[|old(read)|..|old(read)| + |out|]
        decreases n - |out|
      {
        var empty := Empty();
        if empty { return; }
        var ch := Get();
        out := out + [ch];
      }
    }

    /** pipewrite by process p, up to its return or its next sleep. */
    method Write(p: nat)
      requires Valid() && ProcsOk(Abs()) && Enabled(Abs(), Run(p)) && procs[p].Writer?
      modifies this, data
      ensures Valid() && Abs() == Apply(old(Abs()), Run(p))
    {
      var w := procs[p];
      assert ProcOk(w);
      if w.i < |w.src| && !readopen {
        procs := procs[p := Done(-1)];
        return;
      }
      var i := Fill(w.src, w.i);
      Wakeup(true);
      procs := procs[p := if i == |w.src| then Done(i) else Writer(w.src, i, true)];
    }

    /** piperead by process p, up to its return or its next sleep. */
    method Read(p: nat) returns (out: seq<Byte>)
      requires Valid() && Enabled(Abs(), Run(p)) && procs[p].Reader?
      modifies this
      ensures Valid() && Abs() == Apply(old(Abs()), Run(p))
      ensures read == old(read) + out && (procs[p].Done? ==> procs[p].result == |out|)
    {
      out := [];
      var empty := Empty();
      if empty && writeopen {
        procs := procs[p := procs[p].(asleep := true)];
        return;
      }
      out := Drain(procs[p].n);
      var k := |out|;
      Wakeup(false);
      procs := procs[p := Done(k)];
    }

    /** pipewrite by a killed process p that sees the flag after k more bytes: no wakeup. */
    method WriteKilled(p: nat, k: nat)
      requires Valid() && ProcsOk(Abs()) && Enabled(Abs(), Cut(p, k))
      modifies this, data
      ensures Valid() && Abs() == Apply(old(Abs()), Cut(p, k))
    {
      var w := procs[p];
      assert ProcOk(w);
      var i := Fill(w.src[..w.i + k], w.i);
      assert w.src[..w.i + k][w.i..i] == Slice(w.src, w.i, k);
      procs := procs[p := Done(-1)];
    }

    /** piperead by a killed process p: -1 where it would have slept, otherwise as ever. */
    method ReadKilled(p: nat) returns (out: seq<Byte>)
      requires Valid() && Enabled(Abs(), Run(p)) && procs[p].Reader?
      modifies this
      ensures Valid() && read == old(read) + out
      ensures Abs() == Apply(old(Abs()), if Held(old(Abs())) == 0 && old(writeopen) then Leave(p) else Run(p))
    {
      var empty := Empty();
      if empty && writeopen {
        procs := procs[p := Done(-1)];
        return [];
      }
      out := Read(p);
    }

    /** pipeclose; the page is freed when both ends are closed. */
    method Close(writable: bool) returns (freed: bool)
      requires Valid() && Enabled(Abs(), if writable then CloseWrite else CloseRead)
      modifies this
      ensures Valid() && Abs() == Apply(old(Abs()), if writable then CloseWrite else CloseRead)
      ensures freed <==> !readopen && !writeopen
    {
      if writable { writeopen := false; } else { readopen := false; }
      Wakeup(writable);
      freed := !readopen && !writeopen;
    }
  }
}
