/** The log over the buffer cache as a state machine (kernel/log.c with kernel/bio.c).
    Any number of file-system operations, plain readers and the committer interleave; every
    section under a lock and every block write is one step, and a crash may come between any two.
    The cache is keyed by block number; module RingCache shows that the buffers on the ring of
    kernel/bio.c refine it on every run. */
module LogSystem {
  import opened LogDisk
  import Admission

  const NBUF: nat := 30
  const NPROC: nat := 64
  const MAXOPBLOCKS: nat := Admission.MAXOPBLOCKS

  datatype Owner = Nobody | Op(id: nat) | Reader | Committer

  /** One cached buffer. `refcnt` is the source's field. `entering` counts callers between bget's
      increment and acquiresleep, `leaving` those between releasesleep and brelse's decrement.
      `dirty` says that the holder changed the data and has not called log_write yet. */
  datatype Buf = Buf(valid: bool, refcnt: nat, data: Block, holder: Owner, dirty: bool,
                     entering: nat, leaving: nat)

  /** Committing(k) and Recovering(k): k block writes of commit / recover_from_log are on disk.
      Booting: recover_from_log has not read the header yet. */
  datatype Phase = Running | Committing(k: nat) | Booting | Recovering(k: nat)

  /** The disk and the log. `lh` is log.lh.block[0..n) and `pinned` the blocks whose buffer has the
      reference of a bpin without its bunpin. The last three fields only record history: the disk
      when the running commit or recovery started, the logged contents at that time, and the home
      contents that must survive a crash. */
  datatype Journal = Journal(g: Geometry, disk: Disk, lh: seq<nat>, pinned: set<nat>, phase: Phase,
                             base: Disk, vals: seq<Block>, committed: Disk)

  /** `ops` are the operations between begin_op and end_op, named by their process, with the number
      of blocks each has added to the log, so outstanding == |ops|. `asleep` are the processes that
      sleep in begin_op. */
  datatype Sys = Sys(j: Journal, cache: map<nat, Buf>, ops: map<nat, nat>, asleep: set<nat>)

  datatype Step =
    | Hit(b: nat)                                // bget, block cached
    | Miss(b: nat, victim: nat, junk: Block)     // bget, recycle an unused buffer
    | Fresh(b: nat, junk: Block)                 // bget, recycle a never used buffer
    | Acquire(b: nat, who: Owner)                // bget, acquiresleep
    | Fill(b: nat)                               // bread, read from disk
    | Unlock(b: nat)                             // brelse, releasesleep
    | Drop(b: nat)                               // brelse, decrement
    | Modify(b: nat, id: nat, data: Block)       // an operation changes a block it holds
    | LogWrite(b: nat, id: nat)
    | Begin(id: nat)                             // one turn of begin_op
    | End(id: nat)
    | CopyLog(i: nat)                            // iteration i of write_log
    | WriteHead                                  // the commit point
    | Install(i: nat)                            // iteration i of install_trans(0)
    | ClearHead
    | Done                                       // end of commit
    | Crash
    | ReadHead                                   // read_head
    | RecoverWrite(i: nat)                       // iteration i of install_trans(1)
    | RecoverClear
    | RecoverDone

  /** How many blocks install_trans has already unpinned. */
  function InstalledCount(j: Journal): (i: nat)
    ensures i <= |j.lh|
  {
    if j.phase.Recovering? then |j.lh|
    else if !j.phase.Committing? || j.phase.k <= |j.lh| + 1 then 0
    else if j.phase.k <= 2 * |j.lh| + 1 then j.phase.k - |j.lh| - 1 else |j.lh|
  }

  predicate Held(s: Sys, b: nat, who: Owner) {
    b in s.cache && s.cache[b].valid && s.cache[b].holder == who
  }

  // One guard and one effect for each step that writes the disk or the log.

  predicate CanLogWrite(s: Sys, b: nat, id: nat) {
    && id in s.ops && Held(s, b, Op(id)) && !InLog(s.j.g, b) && !Admission.TooBig(|s.j.lh|, s.j.g.size)
    && (b in s.j.lh || s.ops[id] < MAXOPBLOCKS)
  }

  predicate CanCopyLog(s: Sys, i: nat) {
    && i < |s.j.lh| && s.j.phase == Committing(i) && s.j.g.start + 1 + i < |s.j.disk|
    && Held(s, s.j.g.start + 1 + i, Committer) && Held(s, s.j.lh[i], Committer)
  }

  predicate CanWriteHead(s: Sys) {
    && s.j.phase == Committing(|s.j.lh|) && 0 < |s.j.lh| <= LOGSIZE
    && s.j.g.start < |s.j.disk| && Held(s, s.j.g.start, Committer)
  }

  predicate CanInstall(s: Sys, i: nat) {
    && i < |s.j.lh| && s.j.phase == Committing(|s.j.lh| + 1 + i)
    && Held(s, s.j.g.start + 1 + i, Committer) && Held(s, s.j.lh[i], Committer)
    && s.cache[s.j.lh[i]].refcnt > 0 && s.j.lh[i] < |s.j.disk|
  }

  predicate CanClearHead(s: Sys) {
    && s.j.phase == Committing(2 * |s.j.lh| + 1) && 0 < |s.j.lh|
    && s.j.g.start < |s.j.disk| && Held(s, s.j.g.start, Committer)
  }

  predicate CanRecoverWrite(s: Sys, i: nat) {
    && i < |s.j.lh| && s.j.phase == Recovering(i) && s.j.lh[i] < |s.j.disk|
    && Held(s, s.j.g.start + 1 + i, Committer) && Held(s, s.j.lh[i], Committer)
  }

  predicate CanRecoverClear(s: Sys) {
    s.j.phase == Recovering(|s.j.lh|) && s.j.g.start < |s.j.disk| && Held(s, s.j.g.start, Committer)
  }

  predicate Enabled(s: Sys, st: Step) {
    var n := |s.j.lh|;
    var header := s.j.g.start;
    match st
    case Hit(b) => b in s.cache
    case Miss(b, victim, _) =>
      && b !in s.cache && b < |s.j.disk|
      && victim in s.cache && s.cache[victim].refcnt == 0
    case Fresh(b, _) => b !in s.cache && b < |s.j.disk| && |s.cache| < NBUF
    case Acquire(b, who) =>
      && b in s.cache && s.cache[b].entering > 0 && s.cache[b].holder == Nobody && who != Nobody
      && (who.Op? ==> who.id in s.ops)
      && (who == Committer ==> !s.j.phase.Running?)
    case Fill(b) => b in s.cache && b < |s.j.disk| && s.cache[b].holder != Nobody && !s.cache[b].valid
    case Unlock(b) =>
      b in s.cache && s.cache[b].holder != Nobody && s.cache[b].valid && !s.cache[b].dirty
    case Drop(b) => b in s.cache && s.cache[b].leaving > 0 && s.cache[b].refcnt > 0
    case Modify(b, id, _) => id in s.ops && Held(s, b, Op(id)) && !InLog(s.j.g, b)
    case LogWrite(b, id) => CanLogWrite(s, b, id)
    case Begin(id) =>
      && id < NPROC && id !in s.ops && id !in s.asleep
      && (s.j.phase.Running? || s.j.phase.Committing?)
    case End(id) => id in s.ops && forall b :: b in s.cache ==> s.cache[b].holder != Op(id)
    case CopyLog(i) => CanCopyLog(s, i)
    case WriteHead => CanWriteHead(s)
    case Install(i) => CanInstall(s, i)
    case ClearHead => CanClearHead(s)
    case Done =>
      && s.j.phase.Committing? && (s.j.phase.k == 2 * n + 2 || n == 0)
      && forall b :: b in s.cache ==> s.cache[b].holder != Committer
    case Crash => true
    case ReadHead => s.j.phase.Booting? && Held(s, header, Committer) && s.cache[header].data[0] < WORDS
    case RecoverWrite(i) => CanRecoverWrite(s, i)
    case RecoverClear => CanRecoverClear(s)
    case RecoverDone =>
      && s.j.phase == Recovering(n + 1)
      && forall b :: b in s.cache ==> s.cache[b].holder != Committer
  }

  predicate Blocked(s: Sys) { Admission.MustWait(s.j.phase.Committing?, |s.j.lh|, |s.ops|) }

  /** bwrite by the committer or by recovery: block b reaches the disk, one more write is done. */
  function Written(j: Journal, b: nat, x: Block): (r: Journal)
    requires b < |j.disk| && (j.phase.Committing? || j.phase.Recovering?)
  {
    var k := j.phase.k + 1;
    j.(disk := j.disk[b := x], phase := if j.phase.Committing? then Committing(k) else Recovering(k))
  }

  function Put(s: Sys, b: nat, x: Buf): Sys {
    s.(cache := s.cache[b := x])
  }

  /** The committer stores x in its buffer for block b and writes it, which makes the journal `j`. */
  function Flush(s: Sys, b: nat, x: Block, j: Journal, refs: nat): Sys
    requires b in s.cache
  {
    Put(s.(j := j), b, s.cache[b].(data := x, refcnt := refs))
  }

  function AfterLogWrite(s: Sys, b: nat, id: nat): Sys
    requires CanLogWrite(s, b, id)
  {
    if b in s.j.lh then Put(s, b, s.cache[b].(dirty := false))
    else
      var t := s.(j := s.j.(lh := s.j.lh + [b], pinned := s.j.pinned + {b}), ops := s.ops[id := s.ops[id] + 1]);
      Put(t, b, s.cache[b].(dirty := false, refcnt := s.cache[b].refcnt + 1))
  }

  function AfterCopyLog(s: Sys, i: nat): Sys
    requires CanCopyLog(s, i)
  {
    var to, x := s.j.g.start + 1 + i, s.cache[s.j.lh[i]].data;
    Flush(s, to, x, Written(s.j, to, x), s.cache[to].refcnt)
  }

  function AfterWriteHead(s: Sys): Sys
    requires CanWriteHead(s)
  {
    var header := s.j.g.start;
    var x := WithHeader(s.cache[header].data, s.j.lh);
    Flush(s, header, x, Written(s.j, header, x).(committed := AllContents(s)), s.cache[header].refcnt)
  }

  function AfterInstall(s: Sys, i: nat): Sys
    requires CanInstall(s, i)
  {
    var to, x := s.j.lh[i], s.cache[s.j.g.start + 1 + i].data;
    Flush(s, to, x, Written(s.j, to, x).(pinned := s.j.pinned - {to}), s.cache[to].refcnt - 1)
  }

  /** The header is written with an empty list, at the end of a commit or of a recovery. */
  function AfterClear(s: Sys): Sys
    requires CanClearHead(s) || CanRecoverClear(s)
  {
    var header := s.j.g.start;
    var x := WithHeader(s.cache[header].data, []);
    Flush(s, header, x, Written(s.j, header, x), s.cache[header].refcnt)
  }

  function AfterRecoverWrite(s: Sys, i: nat): Sys
    requires CanRecoverWrite(s, i)
  {
    var to, x := s.j.lh[i], s.cache[s.j.g.start + 1 + i].data;
    Flush(s, to, x, Written(s.j, to, x), s.cache[to].refcnt)
  }

  function Apply(s: Sys, st: Step): Sys
    requires Enabled(s, st)
  {
    var header := s.j.g.start;
    match st
    case Hit(b) => Put(s, b, s.cache[b].(refcnt := s.cache[b].refcnt + 1, entering := s.cache[b].entering + 1))
    case Miss(b, victim, junk) => Put(s.(cache := s.cache - {victim}), b, Buf(false, 1, junk, Nobody, false, 1, 0))
    case Fresh(b, junk) => Put(s, b, Buf(false, 1, junk, Nobody, false, 1, 0))
    case Acquire(b, who) => Put(s, b, s.cache[b].(entering := s.cache[b].entering - 1, holder := who))
    case Fill(b) => Put(s, b, s.cache[b].(valid := true, data := s.j.disk[b]))
    case Unlock(b) => Put(s, b, s.cache[b].(holder := Nobody, leaving := s.cache[b].leaving + 1))
    case Drop(b) => Put(s, b, s.cache[b].(refcnt := s.cache[b].refcnt - 1, leaving := s.cache[b].leaving - 1))
    case Modify(b, _, data) => Put(s, b, s.cache[b].(data := data, dirty := true))
    case LogWrite(b, id) => AfterLogWrite(s, b, id)
    case Begin(id) => if Blocked(s) then s.(asleep := s.asleep + {id}) else s.(ops := s.ops[id := 0])
    case End(id) =>
      if s.ops.Keys == {id} then s.(ops := map[], j := s.j.(phase := Committing(0), vals := LoggedContents(s)))
      else s.(ops := s.ops - {id}, asleep := {})
    case CopyLog(i) => AfterCopyLog(s, i)
    case WriteHead => AfterWriteHead(s)
    case Install(i) => AfterInstall(s, i)
    case ClearHead => AfterClear(s)
    case Done => s.(j := s.j.(phase := Running, lh := [], base := s.j.disk, vals := []), asleep := {})
    case Crash =>
      Sys(s.j.(lh := [], pinned := {}, phase := Booting, base := s.j.disk, vals := []), map[], map[], {})
    case ReadHead =>
      var x := s.cache[header].data;
      s.(j := s.j.(phase := Recovering(0), lh := x[1..1 + x[0]]))
    case RecoverWrite(i) => AfterRecoverWrite(s, i)
    case RecoverClear => AfterClear(s)
    case RecoverDone => s.(j := s.j.(phase := Running, lh := [], base := s.j.disk))
  }

  /** What bread returns for block b: the cached copy if there is one, else the block on disk. */
  function Contents(s: Sys, b: nat): Block {
    if b in s.cache && s.cache[b].valid then s.cache[b].data
    else if b < |s.j.disk| then s.j.disk[b] else seq(WORDS, _ => 0)
  }

  function AllContents(s: Sys): (d: Disk)
    ensures |d| == |s.j.disk| && forall b :: 0 <= b < |d| ==> d[b] == Contents(s, b)
  {
    seq(|s.j.disk|, b requires 0 <= b < |s.j.disk| => Contents(s, b))
  }

  function LoggedContents(s: Sys): (vals: seq<Block>)
    ensures |vals| == |s.j.lh| && forall i :: 0 <= i < |vals| ==> vals[i] == Contents(s, s.j.lh[i])
  {
    seq(|s.j.lh|, i requires 0 <= i < |s.j.lh| => Contents(s, s.j.lh[i]))
  }

  // ---------------------------------------------------------------- the invariant

  /** What holds of one cached buffer. References are accounted for; only a running operation has
      changed data; a logged block stays valid; any other clean valid buffer equals the disk. */
  ghost predicate BufOk(j: Journal, ops: set<nat>, b: nat, x: Buf) {
    && b < |j.disk|
    && x.refcnt == x.entering + x.leaving + (if x.holder == Nobody then 0 else 1) + (if b in j.pinned then 1 else 0)
    && (x.dirty ==> x.valid && x.holder.Op? && !InLog(j.g, b))
    && (x.holder.Op? ==> x.holder.id in ops)
    && (x.holder == Committer ==> !j.phase.Running?)
    && (b in j.pinned ==> x.valid)
    && (x.valid && !x.dirty && b !in j.pinned ==> x.data == j.disk[b])
  }

  ghost predicate CacheOk(s: Sys) {
    && |s.cache| <= NBUF
    && (forall b :: b in s.cache ==> BufOk(s.j, s.ops.Keys, b, s.cache[b]))
    && (forall b :: b in s.j.pinned ==> b in s.cache)
  }

  ghost predicate PhaseOk(s: Sys) {
    && (s.ops != map[] ==> s.j.phase.Running?)
    && (s.j.phase.Running? && s.ops == map[] ==> s.j.lh == [])
    && (s.j.phase.Booting? ==> s.j.lh == [])
    && (s.j.phase.Booting? || s.j.phase.Recovering? ==> s.asleep == {})
  }

  /** During a commit the uninstalled logged blocks still have the contents they had when it began. */
  ghost predicate ValsOk(j: Journal, cache: map<nat, Buf>) {
    j.phase.Committing? ==>
      && |j.vals| == |j.lh|
      && forall i :: InstalledCount(j) <= i < |j.lh| ==> j.lh[i] in cache && cache[j.lh[i]].data == j.vals[i]
  }

  /** The pinned blocks are exactly the logged ones that install_trans has not written yet. */
  ghost predicate PinsOk(j: Journal) {
    && (forall b :: b in j.pinned ==> b in j.lh)
    && (forall i :: 0 <= i < |j.lh| ==> (j.lh[i] in j.pinned <==> InstalledCount(j) <= i))
  }

  /** The disk is exactly what the block writes so far of the running commit or recovery made of `base`. */
  ghost predicate DiskOk(j: Journal) {
    && |j.base| == |j.disk| == |j.committed|
    && HeaderOk(j.g, j.base)
    && Loggable(j.g, |j.disk|, j.lh)
    && match j.phase
       case Running => Logged(j.g, j.base) == [] && j.disk == j.base && SameHome(j.g, j.base, j.committed)
       case Committing(k) =>
         && Logged(j.g, j.base) == [] && |j.vals| == |j.lh|
         && k <= 2 * |j.lh| + 2 && (j.lh == [] ==> k == 0)
         && j.disk == CommitDisk(j.g, j.base, j.lh, j.vals, k)
         && (if k <= |j.lh| then SameHome(j.g, j.base, j.committed)
             else Updated(j.g, j.base, j.lh, j.vals, j.committed))
       case Booting => j.disk == j.base && SameHome(j.g, Recovered(j.g, j.base), j.committed)
       case Recovering(k) =>
         && j.lh == Logged(j.g, j.base) && k <= |j.lh| + 1
         && j.disk == RecoverDisk(j.g, j.base, k)
         && SameHome(j.g, Recovered(j.g, j.base), j.committed)
  }

  ghost predicate MemOk(s: Sys) {
    CacheOk(s) && PhaseOk(s) && PinsOk(s.j) && ValsOk(s.j, s.cache)
  }

  ghost predicate Core(s: Sys) {
    MemOk(s) && DiskOk(s.j)
  }

  /** What the running operations below n may still add to the log. */
  function Unspent(ops: map<nat, nat>, n: nat): int {
    if n == 0 then 0
    else Unspent(ops, n - 1) + if n - 1 in ops then MAXOPBLOCKS - ops[n - 1] else 0
  }

  /** The log has room for all that the running operations may still add, and whoever sleeps in
      begin_op would still have to wait. */
  ghost predicate AdmitOk(s: Sys) {
    && (forall id :: id in s.ops ==> id < NPROC && s.ops[id] <= MAXOPBLOCKS)
    && |s.j.lh| + Unspent(s.ops, NPROC) <= LOGSIZE
    && (forall id :: id in s.asleep ==> id !in s.ops)
    && (s.asleep != {} ==> Blocked(s))
  }

  ghost predicate Inv(s: Sys) {
    Core(s) && AdmitOk(s)
  }

  // ---------------------------------------------------------------- cache steps keep it

  /** Replacing or adding one buffer keeps the cache in order when that buffer is by itself. */
  lemma PutKeeps(s: Sys, b: nat, x: Buf)
    requires CacheOk(s) && BufOk(s.j, s.ops.Keys, b, x)
    requires b in s.cache || |s.cache| < NBUF
    ensures CacheOk(Put(s, b, x))
  {
    var t := Put(s, b, x);
    assert t.cache.Keys == s.cache.Keys + {b};
    assert b in s.cache ==> t.cache.Keys == s.cache.Keys;
  }

  lemma PutKeepsVals(s: Sys, b: nat, x: Buf)
    requires CacheOk(s) && PinsOk(s.j) && ValsOk(s.j, s.cache)
    requires s.j.phase.Committing? && b in s.j.pinned ==> x.data == s.cache[b].data
    ensures ValsOk(s.j, Put(s, b, x).cache)
  {
  }

  /** A buffer that bget may recycle is not logged, so forgetting it is harmless. */
  lemma ForgetKeeps(s: Sys, b: nat)
    requires CacheOk(s) && PinsOk(s.j) && ValsOk(s.j, s.cache) && b in s.cache && s.cache[b].refcnt == 0
    ensures b !in s.j.pinned
    ensures CacheOk(s.(cache := s.cache - {b})) && ValsOk(s.j, s.cache - {b})
    ensures |s.cache - {b}| < NBUF
  {
    assert BufOk(s.j, s.ops.Keys, b, s.cache[b]);
    assert (s.cache - {b}).Keys == s.cache.Keys - {b};
  }

  predicate CacheStep(st: Step) {
    st.Hit? || st.Miss? || st.Fresh? || st.Acquire? || st.Fill? || st.Unlock? || st.Drop? || st.Modify?
  }

  lemma BgetKeeps(s: Sys, st: Step)
    requires CacheOk(s) && PinsOk(s.j) && ValsOk(s.j, s.cache) && Enabled(s, st) && (st.Miss? || st.Fresh?)
    ensures CacheOk(Apply(s, st)) && ValsOk(s.j, Apply(s, st).cache)
  {
    var x := Buf(false, 1, st.junk, Nobody, false, 1, 0);
    var r := if st.Miss? then s.(cache := s.cache - {st.victim}) else s;
    if st.Miss? { ForgetKeeps(s, st.victim); }
    PutKeeps(r, st.b, x);
    PutKeepsVals(r, st.b, x);
  }

  lemma BufferStepKeeps(s: Sys, st: Step)
    requires CacheOk(s) && PhaseOk(s) && PinsOk(s.j) && ValsOk(s.j, s.cache)
    requires Enabled(s, st) && CacheStep(st) && !st.Miss? && !st.Fresh?
    ensures CacheOk(Apply(s, st)) && ValsOk(s.j, Apply(s, st).cache)
  {
    assert BufOk(s.j, s.ops.Keys, st.b, s.cache[st.b]);
    var x := Apply(s, st).cache[st.b];
    assert BufOk(s.j, s.ops.Keys, st.b, x);
    PutKeeps(s, st.b, x);
    PutKeepsVals(s, st.b, x);
  }

  lemma CacheStepKeeps(s: Sys, st: Step)
    requires Core(s) && Enabled(s, st) && CacheStep(st)
    ensures Core(Apply(s, st))
  {
    if st.Miss? || st.Fresh? { BgetKeeps(s, st); } else { BufferStepKeeps(s, st); }
  }

  // ---------------------------------------------------------------- operations keep it

  lemma LogWriteKeeps(s: Sys, b: nat, id: nat)
    requires CacheOk(s) && PhaseOk(s) && PinsOk(s.j) && CanLogWrite(s, b, id)
    ensures CacheOk(AfterLogWrite(s, b, id))
  {
    assert BufOk(s.j, s.ops.Keys, b, s.cache[b]);
    if b in s.j.lh {
      PutKeeps(s, b, s.cache[b].(dirty := false));
    } else {
      var t := AfterLogWrite(s, b, id);
      assert t.cache.Keys == s.cache.Keys;
      forall c | c in t.cache ensures BufOk(t.j, t.ops.Keys, c, t.cache[c]) {
        assert BufOk(s.j, s.ops.Keys, c, s.cache[c]);
      }
    }
  }

  lemma LogWriteKeepsDisk(j: Journal, b: nat)
    requires j.phase.Running? && PinsOk(j) && DiskOk(j) && b < |j.disk| && !InLog(j.g, b) && b !in j.lh
    requires |j.lh| < LOGSIZE && |j.lh| < j.g.size - 1
    ensures PinsOk(j.(lh := j.lh + [b], pinned := j.pinned + {b}))
    ensures DiskOk(j.(lh := j.lh + [b], pinned := j.pinned + {b}))
  {
  }

  lemma EndPhase(s: Sys, id: nat)
    requires PhaseOk(s) && Enabled(s, End(id))
    ensures PhaseOk(Apply(s, End(id)))
  {
    if s.ops.Keys != {id} {
      var other :| other in s.ops && other != id;
      assert other in s.ops - {id};
    }
  }

  lemma EndKeeps(s: Sys, id: nat)
    requires CacheOk(s) && PhaseOk(s) && PinsOk(s.j) && Enabled(s, End(id))
    ensures CacheOk(Apply(s, End(id))) && ValsOk(Apply(s, End(id)).j, Apply(s, End(id)).cache)
  {
    var t := Apply(s, End(id));
    forall c | c in t.cache ensures BufOk(t.j, t.ops.Keys, c, t.cache[c]) {
      assert BufOk(s.j, s.ops.Keys, c, s.cache[c]);
    }
    forall i | 0 <= i < |t.j.lh| ensures t.j.lh[i] in t.cache && t.cache[t.j.lh[i]].valid {
      assert BufOk(s.j, s.ops.Keys, s.j.lh[i], s.cache[s.j.lh[i]]);
    }
  }

  lemma LogWriteCore(s: Sys, b: nat, id: nat)
    requires Core(s) && CanLogWrite(s, b, id)
    ensures Core(AfterLogWrite(s, b, id))
  {
    LogWriteKeeps(s, b, id);
    assert BufOk(s.j, s.ops.Keys, b, s.cache[b]);
    if b !in s.j.lh { LogWriteKeepsDisk(s.j, b); }
  }

  lemma BeginCore(s: Sys, id: nat)
    requires Core(s) && Enabled(s, Begin(id))
    ensures Core(Apply(s, Begin(id)))
  {
    var t := Apply(s, Begin(id));
    forall c | c in t.cache ensures BufOk(t.j, t.ops.Keys, c, t.cache[c]) {
      assert BufOk(s.j, s.ops.Keys, c, s.cache[c]);
    }
  }

  lemma EndCore(s: Sys, id: nat)
    requires Core(s) && Enabled(s, End(id))
    ensures Core(Apply(s, End(id)))
  {
    EndPhase(s, id);
    EndKeeps(s, id);
  }

  // ---------------------------------------------------------------- commit steps keep it

  lemma LogNotPinned(j: Journal, b: nat)
    requires PinsOk(j) && DiskOk(j) && InLog(j.g, b)
    ensures b < |j.disk| && b !in j.pinned
  {
  }

  /** A buffer of the log area that the committer holds agrees with the disk. */
  lemma CommitterSees(s: Sys, b: nat)
    requires CacheOk(s) && Held(s, b, Committer) && b !in s.j.pinned
    ensures b < |s.j.disk| && s.cache[b].data == s.j.disk[b]
  {
    assert BufOk(s.j, s.ops.Keys, b, s.cache[b]);
  }

  /** bwrite of a held block, with or without the bunpin, keeps cache and disk together. */
  lemma FlushKeepsCache(s: Sys, b: nat, x: Block, j: Journal, refs: nat)
    requires CacheOk(s) && Held(s, b, Committer) && b < |s.j.disk|
    requires j.disk == s.j.disk[b := x] && !j.phase.Running? && !s.j.phase.Running? && j.g == s.j.g
    requires j.pinned == s.j.pinned - {b} && refs + (if b in s.j.pinned then 1 else 0) == s.cache[b].refcnt
    ensures CacheOk(Flush(s, b, x, j, refs))
  {
    var t := Flush(s, b, x, j, refs);
    assert t.cache.Keys == s.cache.Keys;
    forall c | c in t.cache ensures BufOk(t.j, t.ops.Keys, c, t.cache[c]) {
      assert BufOk(s.j, s.ops.Keys, c, s.cache[c]);
    }
  }

  lemma FlushLogKeeps(s: Sys, b: nat, x: Block, j: Journal)
    requires CacheOk(s) && PinsOk(s.j) && ValsOk(s.j, s.cache)
    requires Held(s, b, Committer) && b < |s.j.disk| && b !in s.j.pinned
    requires s.j.phase.Committing? || s.j.phase.Recovering?
    requires j == Written(s.j, b, x).(committed := j.committed) && InstalledCount(j) == InstalledCount(s.j)
    ensures var t := Flush(s, b, x, j, s.cache[b].refcnt); CacheOk(t) && PinsOk(j) && ValsOk(j, t.cache)
  {
    FlushKeepsCache(s, b, x, j, s.cache[b].refcnt);
  }

  /** At the commit point no operation is running, so the contents seen through the cache are the
      old disk with exactly the logged blocks replaced. */
  lemma ContentsAtCommit(s: Sys)
    requires Core(s) && s.j.phase.Committing? && s.j.phase.k <= |s.j.lh|
    ensures Updated(s.j.g, s.j.base, s.j.lh, s.j.vals, AllContents(s))
  {
    forall i | 0 <= i < |s.j.lh| ensures Contents(s, s.j.lh[i]) == s.j.vals[i] {
      assert BufOk(s.j, s.ops.Keys, s.j.lh[i], s.cache[s.j.lh[i]]);
    }
    CommitIsAppend(s.j.g, s.j.base, s.j.lh, s.j.vals, s.j.phase.k);
    AppendedAt(s.j.g, s.j.base, s.j.vals, s.j.phase.k);
    forall b | 0 <= b < |s.j.disk| && !InLog(s.j.g, b) && b !in s.j.lh
      ensures Contents(s, b) == s.j.base[b]
    {
      if b in s.cache { assert BufOk(s.j, s.ops.Keys, b, s.cache[b]); }
    }
  }

  lemma ValsAt(j: Journal, cache: map<nat, Buf>, i: nat)
    requires ValsOk(j, cache) && j.phase.Committing? && InstalledCount(j) <= i < |j.lh|
    ensures |j.vals| == |j.lh| && j.lh[i] in cache && cache[j.lh[i]].data == j.vals[i]
  {
  }

  lemma CopyLogWrites(j: Journal, i: nat)
    requires DiskOk(j) && i < |j.lh| && j.phase == Committing(i)
    ensures InLog(j.g, j.g.start + 1 + i) && j.g.start + 1 + i < |j.disk|
    ensures DiskOk(Written(j, j.g.start + 1 + i, j.vals[i]))
  {
  }

  lemma CopyLogMem(s: Sys, i: nat, j: Journal)
    requires MemOk(s) && CanCopyLog(s, i) && s.j.g.start + 1 + i !in s.j.pinned
    requires j == Written(s.j, s.j.g.start + 1 + i, s.cache[s.j.lh[i]].data)
    ensures MemOk(AfterCopyLog(s, i))
  {
    FlushLogKeeps(s, s.j.g.start + 1 + i, s.cache[s.j.lh[i]].data, j);
    assert PhaseOk(AfterCopyLog(s, i));
  }

  lemma CopyLogKeeps(s: Sys, i: nat)
    requires Core(s) && CanCopyLog(s, i)
    ensures Core(AfterCopyLog(s, i))
  {
    CopyLogWrites(s.j, i);
    LogNotPinned(s.j, s.j.g.start + 1 + i);
    ValsAt(s.j, s.cache, i);
    CopyLogMem(s, i, AfterCopyLog(s, i).j);
  }

  lemma HeadWrites(j: Journal, home: Disk)
    requires DiskOk(j) && j.phase.Committing? && j.lh != [] && (j.phase.k == |j.lh| || j.phase.k == 2 * |j.lh| + 1)
    requires j.phase.k == |j.lh| ==> Updated(j.g, j.base, j.lh, j.vals, home)
    requires j.phase.k != |j.lh| ==> home == j.committed
    ensures InLog(j.g, j.g.start) && j.g.start < |j.disk|
    ensures var x := WithHeader(j.disk[j.g.start], if j.phase.k == |j.lh| then j.lh else []);
      DiskOk(Written(j, j.g.start, x).(committed := home))
  {
  }

  /** The committer's write of the header, with or without a list. */
  lemma HeadMem(s: Sys, bs: seq<nat>, home: Disk, t: Sys)
    requires MemOk(s) && s.j.phase.Committing? && Held(s, s.j.g.start, Committer) && s.j.g.start < |s.j.disk|
    requires s.j.g.start !in s.j.pinned && |bs| <= LOGSIZE
    requires s.j.phase.k == |s.j.lh| || s.j.phase.k == 2 * |s.j.lh| + 1
    requires var x := WithHeader(s.j.disk[s.j.g.start], bs);
      t == Flush(s, s.j.g.start, x, Written(s.j, s.j.g.start, x).(committed := home), s.cache[s.j.g.start].refcnt)
    ensures MemOk(t)
  {
    FlushLogKeeps(s, s.j.g.start, WithHeader(s.j.disk[s.j.g.start], bs), t.j);
  }

  lemma WriteHeadKeeps(s: Sys)
    requires Core(s) && CanWriteHead(s)
    ensures Core(AfterWriteHead(s))
  {
    ContentsAtCommit(s);
    HeadWrites(s.j, AllContents(s));
    LogNotPinned(s.j, s.j.g.start);
    CommitterSees(s, s.j.g.start);
    HeadMem(s, s.j.lh, AllContents(s), AfterWriteHead(s));
  }

  lemma ClearHeadKeeps(s: Sys)
    requires Core(s) && CanClearHead(s)
    ensures Core(AfterClear(s))
  {
    HeadWrites(s.j, s.j.committed);
    LogNotPinned(s.j, s.j.g.start);
    CommitterSees(s, s.j.g.start);
    HeadMem(s, [], s.j.committed, AfterClear(s));
  }

  lemma InstallWrites(j: Journal, i: nat, t: Journal)
    requires DiskOk(j) && i < |j.lh| && j.phase == Committing(|j.lh| + 1 + i)
    ensures Distinct(j.lh) && j.lh[i] < |j.disk| && |j.vals| == |j.lh|
    ensures InLog(j.g, j.g.start + 1 + i) && j.g.start + 1 + i < |j.disk|
    ensures j.disk[j.g.start + 1 + i] == j.vals[i]
    ensures t == Written(j, j.lh[i], j.vals[i]).(pinned := j.pinned - {j.lh[i]}) ==> DiskOk(t)
  {
    LogHolds(j.g, j.base, j.lh, j.vals, j.phase.k, i);
    CommitInstallStep(j.g, j.base, j.lh, j.vals, j.phase.k, i);
  }

  lemma InstallUnpins(j: Journal, t: Journal, i: nat)
    requires PinsOk(j) && i < |j.lh| && Distinct(j.lh) && t.lh == j.lh
    requires j.phase == Committing(|j.lh| + 1 + i) && t.phase == Committing(|j.lh| + 2 + i)
    requires t.pinned == j.pinned - {j.lh[i]}
    ensures j.lh[i] in j.pinned && PinsOk(t)
  {
    assert InstalledCount(j) == i && InstalledCount(t) == i + 1;
  }

  lemma InstallKeepsVals(j: Journal, cache: map<nat, Buf>, t: Journal, i: nat, y: Buf)
    requires ValsOk(j, cache) && Distinct(j.lh) && i < |j.lh| && j.phase == Committing(|j.lh| + 1 + i)
    requires t.lh == j.lh && t.vals == j.vals && t.phase == Committing(|j.lh| + 2 + i)
    ensures ValsOk(t, cache[j.lh[i] := y])
  {
  }

  /** install_trans rewrites a home block with the contents its pinned buffer already has. */
  lemma InstallSource(s: Sys, i: nat)
    requires CacheOk(s) && ValsOk(s.j, s.cache) && CanInstall(s, i)
    requires s.j.g.start + 1 + i !in s.j.pinned
    requires s.j.g.start + 1 + i < |s.j.disk| && i < |s.j.vals| && s.j.disk[s.j.g.start + 1 + i] == s.j.vals[i]
    ensures s.cache[s.j.g.start + 1 + i].data == s.j.vals[i] == s.cache[s.j.lh[i]].data
  {
    ValsAt(s.j, s.cache, i);
    CommitterSees(s, s.j.g.start + 1 + i);
  }

  lemma FlushHomeKeeps(s: Sys, i: nat, to: nat, x: Block, j: Journal)
    requires CacheOk(s) && PinsOk(s.j) && ValsOk(s.j, s.cache) && Distinct(s.j.lh)
    requires i < |s.j.lh| && to == s.j.lh[i] && s.j.phase == Committing(|s.j.lh| + 1 + i)
    requires Held(s, to, Committer) && to < |s.j.disk| && s.cache[to].refcnt > 0
    requires j == Written(s.j, to, x).(pinned := s.j.pinned - {to})
    ensures var t := Flush(s, to, x, j, s.cache[to].refcnt - 1); CacheOk(t) && PinsOk(j) && ValsOk(j, t.cache)
  {
    InstallUnpins(s.j, j, i);
    FlushKeepsCache(s, to, x, j, s.cache[to].refcnt - 1);
    InstallKeepsVals(s.j, s.cache, j, i, s.cache[to].(data := x, refcnt := s.cache[to].refcnt - 1));
  }

  lemma InstallMem(s: Sys, i: nat)
    requires MemOk(s) && CanInstall(s, i) && Distinct(s.j.lh) && s.j.g.start + 1 + i !in s.j.pinned
    requires s.j.g.start + 1 + i < |s.j.disk| && i < |s.j.vals| && s.j.disk[s.j.g.start + 1 + i] == s.j.vals[i]
    ensures MemOk(AfterInstall(s, i))
    ensures AfterInstall(s, i).j == Written(s.j, s.j.lh[i], s.j.vals[i]).(pinned := s.j.pinned - {s.j.lh[i]})
  {
    InstallSource(s, i);
    FlushHomeKeeps(s, i, s.j.lh[i], s.j.vals[i], AfterInstall(s, i).j);
  }

  lemma InstallKeeps(s: Sys, i: nat)
    requires Core(s) && CanInstall(s, i)
    ensures Core(AfterInstall(s, i))
  {
    InstallWrites(s.j, i, AfterInstall(s, i).j);
    LogNotPinned(s.j, s.j.g.start + 1 + i);
    InstallMem(s, i);
  }

  /** When a commit is over its disk has an empty log and the new home blocks. */
  lemma CommitEnds(j: Journal)
    requires DiskOk(j) && j.phase.Committing? && (j.phase.k == 2 * |j.lh| + 2 || j.lh == [])
    ensures HeaderOk(j.g, j.disk) && Logged(j.g, j.disk) == [] && SameHome(j.g, j.disk, j.committed)
  {
    if j.lh != [] {
      CommitStep(j.g, j.base, j.lh, j.vals, j.phase.k);
      HeadedRoundTrip(j.g, CommitDisk(j.g, j.base, j.lh, j.vals, 2 * |j.lh| + 1), []);
      RecoveredAt(j.g, j.disk);
    }
  }

  lemma DoneKeeps(s: Sys)
    requires Core(s) && Enabled(s, Done)
    ensures Core(Apply(s, Done))
  {
    CommitEnds(s.j);
    var t := Apply(s, Done);
    assert s.j.pinned == {};
    forall c | c in t.cache ensures BufOk(t.j, t.ops.Keys, c, t.cache[c]) {
      assert BufOk(s.j, s.ops.Keys, c, s.cache[c]);
    }
  }

  // ---------------------------------------------------------------- crash and recovery keep it

  /** A crash at any reachable moment leaves a disk from which recovery restores `committed`. */
  lemma Durable(j: Journal)
    requires DiskOk(j)
    ensures HeaderOk(j.g, j.disk) && SameHome(j.g, Recovered(j.g, j.disk), j.committed)
  {
    match j.phase
    case Running => RecoveredAt(j.g, j.disk);
    case Committing(k) => CommitStep(j.g, j.base, j.lh, j.vals, k);
    case Booting =>
    case Recovering(k) => RecoverStep(j.g, j.base, k);
  }

  lemma CrashKeeps(s: Sys)
    requires Core(s)
    ensures Core(Apply(s, Crash))
  {
    Durable(s.j);
  }

  lemma NonePinned(j: Journal)
    requires PinsOk(j) && (j.phase.Recovering? || j.lh == [])
    ensures j.pinned == {}
  {
    assert forall b :: b in j.pinned ==> b in j.lh;
  }

  lemma ReadHeadKeeps(s: Sys)
    requires Core(s) && Enabled(s, ReadHead)
    ensures Core(Apply(s, ReadHead))
  {
    var b := s.j.g.start;
    NonePinned(s.j);
    CommitterSees(s, b);
    var t := Apply(s, ReadHead);
    assert t.j.lh == Logged(t.j.g, t.j.base);
    forall c | c in t.cache ensures BufOk(t.j, t.ops.Keys, c, t.cache[c]) {
      assert BufOk(s.j, s.ops.Keys, c, s.cache[c]);
    }
  }

  lemma RecoverWrites(j: Journal, i: nat, x: Block)
    requires DiskOk(j) && i < |j.lh| && j.phase == Recovering(i)
    ensures j.lh[i] < |j.disk| && InLog(j.g, j.g.start + 1 + i) && j.g.start + 1 + i < |j.disk|
    ensures x == j.disk[j.g.start + 1 + i] ==> DiskOk(Written(j, j.lh[i], x))
  {
  }

  lemma RecoverMem(s: Sys, i: nat, j: Journal)
    requires MemOk(s) && CanRecoverWrite(s, i) && s.j.pinned == {}
    requires j == Written(s.j, s.j.lh[i], s.cache[s.j.g.start + 1 + i].data)
    ensures MemOk(AfterRecoverWrite(s, i))
  {
    FlushLogKeeps(s, s.j.lh[i], s.cache[s.j.g.start + 1 + i].data, j);
    assert PhaseOk(AfterRecoverWrite(s, i));
  }

  lemma RecoverWriteKeeps(s: Sys, i: nat)
    requires Core(s) && CanRecoverWrite(s, i)
    ensures Core(AfterRecoverWrite(s, i))
  {
    NonePinned(s.j);
    CommitterSees(s, s.j.g.start + 1 + i);
    RecoverWrites(s.j, i, s.cache[s.j.g.start + 1 + i].data);
    RecoverMem(s, i, AfterRecoverWrite(s, i).j);
  }

  lemma RecoverClears(j: Journal)
    requires DiskOk(j) && j.phase == Recovering(|j.lh|)
    ensures j.g.start < |j.disk| && DiskOk(Written(j, j.g.start, WithHeader(j.disk[j.g.start], [])))
  {
  }

  lemma RecoverClearKeeps(s: Sys)
    requires Core(s) && CanRecoverClear(s)
    ensures Core(AfterClear(s))
  {
    var b := s.j.g.start;
    NonePinned(s.j);
    CommitterSees(s, b);
    RecoverClears(s.j);
    var x := WithHeader(s.j.disk[b], []);
    FlushLogKeeps(s, b, x, Written(s.j, b, x));
  }

  lemma RecoverEnds(j: Journal)
    requires DiskOk(j) && j.phase == Recovering(|j.lh| + 1)
    ensures DiskOk(j.(phase := Running, lh := [], base := j.disk))
  {
    RecoverStep(j.g, j.base, j.phase.k);
    Durable(j);
    RecoveredAt(j.g, j.disk);
  }

  lemma RecoverDoneKeeps(s: Sys)
    requires Core(s) && Enabled(s, RecoverDone)
    ensures Core(Apply(s, RecoverDone))
  {
    RecoverEnds(s.j);
    NonePinned(s.j);
    var t := Apply(s, RecoverDone);
    forall c | c in t.cache ensures BufOk(t.j, t.ops.Keys, c, t.cache[c]) {
      assert BufOk(s.j, s.ops.Keys, c, s.cache[c]);
    }
  }

  lemma CoreKeeps(s: Sys, st: Step)
    requires Core(s) && Enabled(s, st)
    ensures Core(Apply(s, st))
  {
    if CacheStep(st) { CacheStepKeeps(s, st); }
    else {
      match st
      case WriteHead => WriteHeadKeeps(s);
      case ClearHead => ClearHeadKeeps(s);
      case LogWrite(b, id) => LogWriteCore(s, b, id);
      case Begin(id) => BeginCore(s, id);
      case End(id) => EndCore(s, id);
      case CopyLog(i) => CopyLogKeeps(s, i);
      case Install(i) => InstallKeeps(s, i);
      case Done => DoneKeeps(s);
      case Crash => CrashKeeps(s);
      case ReadHead => ReadHeadKeeps(s);
      case RecoverWrite(i) => RecoverWriteKeeps(s, i);
      case RecoverClear => RecoverClearKeeps(s);
      case RecoverDone => RecoverDoneKeeps(s);
    }
  }

  // ---------------------------------------------------------------- admission keeps it

  lemma {:induction false} UnspentSame(ops: map<nat, nat>, other: map<nat, nat>, n: nat)
    requires forall id: nat :: id < n ==> (id in ops <==> id in other) && (id in ops ==> ops[id] == other[id])
    ensures Unspent(ops, n) == Unspent(other, n)
  {
    if n == 0 {
    } else {
      UnspentSame(ops, other, n - 1);
    }
  }

  function Share(ops: map<nat, nat>, id: nat): int { if id in ops then MAXOPBLOCKS - ops[id] else 0 }

  /** Only the share of process id changes. */
  lemma {:induction false} UnspentChange(ops: map<nat, nat>, other: map<nat, nat>, n: nat, id: nat)
    requires id < n
    requires forall i: nat :: i != id ==> (i in ops <==> i in other) && (i in ops ==> ops[i] == other[i])
    ensures Unspent(other, n) == Unspent(ops, n) - Share(ops, id) + Share(other, id)
  {
    if id == n - 1 {
      UnspentSame(ops, other, n - 1);
    } else {
      UnspentChange(ops, other, n - 1, id);
    }
  }

  /** How many operations run below n. */
  function Active(ids: set<nat>, n: nat): int {
    if n == 0 then 0 else Active(ids, n - 1) + if n - 1 in ids then 1 else 0
  }

  lemma {:induction false} ActiveLess(ids: set<nat>, n: nat, id: nat)
    requires n <= id
    ensures Active(ids - {id}, n) == Active(ids, n)
  {
    if n == 0 {
    } else {
      ActiveLess(ids, n - 1, id);
    }
  }

  lemma {:induction false} ActiveBound(ids: set<nat>, n: nat)
    ensures Active(ids, n) <= |ids|
  {
    if n == 0 {
    } else if n - 1 in ids {
      ActiveLess(ids, n - 1, n - 1);
      ActiveBound(ids - {n - 1}, n - 1);
    } else {
      ActiveBound(ids, n - 1);
    }
  }

  lemma {:induction false} UnspentActive(ops: map<nat, nat>, n: nat)
    ensures Unspent(ops, n) <= MAXOPBLOCKS * Active(ops.Keys, n)
  {
    if n == 0 {
    } else {
      UnspentActive(ops, n - 1);
    }
  }

  lemma UnspentBound(ops: map<nat, nat>, n: nat)
    ensures Unspent(ops, n) <= MAXOPBLOCKS * |ops|
  {
    UnspentActive(ops, n);
    ActiveBound(ops.Keys, n);
    assert |ops| == |ops.Keys|;
  }

  lemma {:induction false} UnspentAtLeast(ops: map<nat, nat>, n: nat, id: nat)
    requires forall i :: i in ops ==> ops[i] <= MAXOPBLOCKS
    ensures Unspent(ops, n) >= 0 && (id < n ==> Unspent(ops, n) >= Share(ops, id))
  {
    if n == 0 {
    } else {
      UnspentAtLeast(ops, n - 1, id);
    }
  }

  lemma {:induction false} NothingUnspent(n: nat)
    ensures Unspent(map[], n) == 0
  {
    if n == 0 {
    } else {
      NothingUnspent(n - 1);
    }
  }

  lemma BeginAdmits(s: Sys, id: nat)
    requires Inv(s) && Enabled(s, Begin(id))
    ensures AdmitOk(Apply(s, Begin(id)))
  {
    var t := Apply(s, Begin(id));
    if !Blocked(s) {
      UnspentBound(s.ops, NPROC);
      UnspentChange(s.ops, t.ops, NPROC, id);
    }
  }

  lemma LogWriteAdmits(s: Sys, b: nat, id: nat)
    requires Inv(s) && Enabled(s, LogWrite(b, id))
    ensures AdmitOk(Apply(s, LogWrite(b, id)))
  {
    var t := Apply(s, LogWrite(b, id));
    if b !in s.j.lh {
      UnspentChange(s.ops, t.ops, NPROC, id);
      assert t.ops.Keys == s.ops.Keys;
    }
  }

  lemma EndAdmits(s: Sys, id: nat)
    requires Inv(s) && Enabled(s, End(id))
    ensures AdmitOk(Apply(s, End(id)))
  {
    var t := Apply(s, End(id));
    UnspentAtLeast(s.ops, NPROC, id);
    if s.ops.Keys == {id} { NothingUnspent(NPROC); } else { UnspentChange(s.ops, t.ops, NPROC, id); }
  }

  /** A step that starts anew has nobody to admit. */
  lemma AnewAdmits(t: Sys)
    requires |t.j.lh| <= LOGSIZE && t.ops == map[] && t.asleep == {}
    ensures AdmitOk(t)
  {
    NothingUnspent(NPROC);
  }

  predicate Anew(st: Step) { st.Crash? || st.ReadHead? || st.Done? || st.RecoverDone? }

  lemma NobodyIn(s: Sys, st: Step)
    requires PhaseOk(s) && Enabled(s, st) && Anew(st)
    ensures Apply(s, st).ops == map[] && Apply(s, st).asleep == {}
  {
  }

  lemma AnewKeeps(s: Sys, st: Step)
    requires PhaseOk(s) && Enabled(s, st) && Anew(st) && |Apply(s, st).j.lh| <= LOGSIZE
    ensures AdmitOk(Apply(s, st))
  {
    NobodyIn(s, st);
    AnewAdmits(Apply(s, st));
  }

  lemma SameAdmits(s: Sys, t: Sys)
    requires AdmitOk(s) && t.ops == s.ops && t.asleep == s.asleep && |t.j.lh| == |s.j.lh|
    requires t.j.phase.Committing? <==> s.j.phase.Committing?
    ensures AdmitOk(t)
  {
  }

  predicate Operates(st: Step) { st.Begin? || st.LogWrite? || st.End? }

  lemma OperationAdmits(s: Sys, st: Step)
    requires Inv(s) && Enabled(s, st) && Operates(st)
    ensures AdmitOk(Apply(s, st))
  {
    match st
    case Begin(id) => BeginAdmits(s, id);
    case LogWrite(b, id) => LogWriteAdmits(s, b, id);
    case End(id) => EndAdmits(s, id);
  }

  lemma OtherAdmits(s: Sys, st: Step)
    requires AdmitOk(s) && Enabled(s, st) && !Operates(st) && !Anew(st)
    ensures AdmitOk(Apply(s, st))
  {
    SameAdmits(s, Apply(s, st));
  }

  lemma AdmitKeeps(s: Sys, st: Step)
    requires Inv(s) && Enabled(s, st) && |Apply(s, st).j.lh| <= LOGSIZE
    ensures AdmitOk(Apply(s, st))
  {
    if Operates(st) { OperationAdmits(s, st); } else if Anew(st) { AnewKeeps(s, st); } else { OtherAdmits(s, st); }
  }

  /** Every step of every process keeps the invariant. */
  lemma StepKeeps(s: Sys, st: Step)
    requires Inv(s) && Enabled(s, st)
    ensures Inv(Apply(s, st))
  {
    CoreKeeps(s, st);
    AdmitKeeps(s, st);
  }

  // ---------------------------------------------------------------- what it means

  /** Log and cache agree: a block in lh that is not installed yet has a valid buffer that bget
      cannot recycle, and it is what write_log and readers see. */
  lemma LoggedStaysCached(s: Sys, i: nat)
    requires Inv(s) && InstalledCount(s.j) <= i < |s.j.lh|
    ensures var b := s.j.lh[i];
      && b in s.cache && s.cache[b].valid && s.cache[b].refcnt >= 1
      && Contents(s, b) == s.cache[b].data
      && forall c, junk :: !Enabled(s, Miss(c, b, junk))
  {
    assert BufOk(s.j, s.ops.Keys, s.j.lh[i], s.cache[s.j.lh[i]]);
  }

  /** What log_write's first test does to an operation within its budget. A new block always finds
      n < LOGSIZE, so it is refused exactly when the log area is too small for it: never when the area
      has more than LOGSIZE blocks, and with exactly LOGSIZE of them, as mkfs makes it, when one
      slot is left. A block that would be absorbed is refused by either test. */
  lemma BudgetRefused(s: Sys, b: nat, id: nat)
    requires Inv(s) && id in s.ops && Held(s, b, Op(id)) && !InLog(s.j.g, b)
    requires b in s.j.lh || s.ops[id] < MAXOPBLOCKS
    ensures b !in s.j.lh ==> |s.j.lh| < LOGSIZE && (Enabled(s, LogWrite(b, id)) <==> |s.j.lh| < s.j.g.size - 1)
    ensures b !in s.j.lh && s.j.g.size > LOGSIZE ==> Enabled(s, LogWrite(b, id))
    ensures b !in s.j.lh && s.j.g.size == LOGSIZE ==> (!Enabled(s, LogWrite(b, id)) <==> |s.j.lh| == LOGSIZE - 1)
    ensures b in s.j.lh ==> (Enabled(s, LogWrite(b, id)) <==> |s.j.lh| < LOGSIZE && |s.j.lh| < s.j.g.size - 1)
  {
    UnspentAtLeast(s.ops, NPROC, id);
  }

  /** Home blocks change on disk only when install_trans writes them, in a commit or in a recovery. */
  lemma HomeWrites(s: Sys, st: Step, b: nat)
    requires Inv(s) && Enabled(s, st) && b < |s.j.disk| && !InLog(s.j.g, b)
    ensures |Apply(s, st).j.disk| == |s.j.disk|
    ensures Apply(s, st).j.disk[b] != s.j.disk[b] ==>
      (st.Install? || st.RecoverWrite?) && st.i < |s.j.lh| && s.j.lh[st.i] == b
  {
    FewWrites(s, st, b);
  }

  lemma FewWrites(s: Sys, st: Step, b: nat)
    requires Enabled(s, st) && b < |s.j.disk| && !InLog(s.j.g, b) && |s.j.lh| < s.j.g.size
    ensures |Apply(s, st).j.disk| == |s.j.disk|
    ensures Apply(s, st).j.disk[b] != s.j.disk[b] ==>
      (st.Install? || st.RecoverWrite?) && st.i < |s.j.lh| && s.j.lh[st.i] == b
  {
  }

  /** With no operation running and no commit under way, everything is durable. */
  lemma QuiescentDurable(s: Sys, b: nat)
    requires Inv(s) && s.j.phase.Running? && s.ops == map[] && b < |s.j.disk| && !InLog(s.j.g, b)
    ensures Contents(s, b) == s.j.committed[b]
  {
    if b in s.cache { assert BufOk(s.j, s.ops.Keys, b, s.cache[b]); }
  }

  predicate ChangesContents(st: Step, b: nat) {
    st.Crash? || st.RecoverWrite? || (st.Modify? && st.b == b)
  }

  lemma InstallSame(s: Sys, i: nat)
    requires Core(s) && CanInstall(s, i)
    ensures s.cache[s.j.g.start + 1 + i].data == s.cache[s.j.lh[i]].data
  {
    InstallWrites(s.j, i, s.j);
    LogNotPinned(s.j, s.j.g.start + 1 + i);
    InstallSource(s, i);
  }

  lemma InstallKeepsContents(s: Sys, i: nat, b: nat)
    requires CanInstall(s, i) && b < |s.j.disk|
    requires s.cache[s.j.g.start + 1 + i].data == s.cache[s.j.lh[i]].data
    ensures Contents(AfterInstall(s, i), b) == Contents(s, b)
  {
    var t := AfterInstall(s, i);
    if b != s.j.lh[i] {
      FlushKeepsContents(s, s.j.lh[i], s.cache[s.j.lh[i]].data, t.j, s.cache[s.j.lh[i]].refcnt - 1, b);
    }
  }

  lemma FlushKeepsContents(s: Sys, b: nat, x: Block, j: Journal, refs: nat, c: nat)
    requires b in s.cache && s.cache[b].valid && c != b && c < |s.j.disk| && b < |s.j.disk|
    requires j.disk == s.j.disk[b := x]
    ensures Contents(Flush(s, b, x, j, refs), c) == Contents(s, c)
  {
  }

  lemma LogWritesKeepContents(s: Sys, st: Step, b: nat)
    requires Enabled(s, st) && b < |s.j.disk| && !InLog(s.j.g, b)
    requires st.CopyLog? || st.WriteHead? || st.ClearHead? || st.RecoverClear?
    requires |s.j.lh| < s.j.g.size
    ensures Contents(Apply(s, st), b) == Contents(s, b)
  {
    var t := Apply(s, st);
    var to := if st.CopyLog? then s.j.g.start + 1 + st.i else s.j.g.start;
    FlushKeepsContents(s, to, t.cache[to].data, t.j, s.cache[to].refcnt, b);
  }

  lemma MissKeepsContents(s: Sys, st: Step, b: nat)
    requires CacheOk(s) && Enabled(s, st) && st.Miss? && b < |s.j.disk|
    ensures Contents(Apply(s, st), b) == Contents(s, b)
  {
    assert BufOk(s.j, s.ops.Keys, st.victim, s.cache[st.victim]);
  }

  lemma OtherKeepsContents(s: Sys, st: Step, b: nat)
    requires Enabled(s, st) && !ChangesContents(st, b) && b < |s.j.disk|
    requires !st.CopyLog? && !st.WriteHead? && !st.ClearHead? && !st.RecoverClear? && !st.Install? && !st.Miss?
    ensures Contents(Apply(s, st), b) == Contents(s, b)
  {
  }

  lemma CommitKeepsContents(s: Sys, st: Step, b: nat)
    requires Inv(s) && Enabled(s, st) && b < |s.j.disk| && !InLog(s.j.g, b)
    requires st.CopyLog? || st.WriteHead? || st.ClearHead? || st.RecoverClear? || st.Install?
    ensures Contents(Apply(s, st), b) == Contents(s, b)
  {
    if st.Install? {
      InstallSame(s, st.i);
      InstallKeepsContents(s, st.i, b);
    } else {
      LogWritesKeepContents(s, st, b);
    }
  }

  /** The cache is transparent: for every home block, what bread returns changes only when an
      operation modifies that block; hits, misses, recycling, releases, logging, committing and
      installing never change it. */
  lemma ContentsKept(s: Sys, st: Step, b: nat)
    requires Inv(s) && Enabled(s, st) && !ChangesContents(st, b)
    requires b < |s.j.disk| && !InLog(s.j.g, b)
    ensures Contents(Apply(s, st), b) == Contents(s, b)
  {
    if st.CopyLog? || st.WriteHead? || st.ClearHead? || st.RecoverClear? || st.Install? {
      CommitKeepsContents(s, st, b);
    } else if st.Miss? {
      MissKeepsContents(s, st, b);
    } else {
      OtherKeepsContents(s, st, b);
    }
  }

  // ---------------------------------------------------------------- whole runs

  ghost predicate Init(s: Sys) {
    && s.j.phase.Running? && s.j.lh == [] && s.j.pinned == {} && s.cache == map[] && s.ops == map[] && s.asleep == {}
    && HeaderOk(s.j.g, s.j.disk) && Logged(s.j.g, s.j.disk) == []
    && s.j.base == s.j.disk == s.j.committed
  }

  ghost predicate Run(ss: seq<Sys>, sts: seq<Step>) {
    && |ss| == |sts| + 1
    && Init(ss[0])
    && forall i :: 0 <= i < |sts| ==> Enabled(ss[i], sts[i]) && ss[i + 1] == Apply(ss[i], sts[i])
  }

  /** The contents seen through the cache at the latest commit point among the first k steps. */
  ghost function LastCommit(ss: seq<Sys>, sts: seq<Step>, k: nat): Disk
    requires |ss| == |sts| + 1 && k <= |sts|
  {
    if k == 0 then ss[0].j.disk
    else if sts[k - 1].WriteHead? then AllContents(ss[k - 1])
    else LastCommit(ss, sts, k - 1)
  }

  lemma InitInv(s: Sys)
    requires Init(s)
    ensures Inv(s)
  {
    NothingUnspent(NPROC);
  }

  lemma CommittedStep(s: Sys, st: Step)
    requires Enabled(s, st)
    ensures Apply(s, st).j.g == s.j.g
    ensures Apply(s, st).j.committed == if st.WriteHead? then AllContents(s) else s.j.committed
  {
  }

  lemma {:induction false} RunKeeps(ss: seq<Sys>, sts: seq<Step>, k: nat)
    requires Run(ss, sts) && k <= |sts|
    ensures Inv(ss[k]) && ss[k].j.committed == LastCommit(ss, sts, k) && ss[k].j.g == ss[0].j.g
  {
    if k == 0 {
      InitInv(ss[0]);
    } else {
      RunKeeps(ss, sts, k - 1);
      StepKeeps(ss[k - 1], sts[k - 1]);
      CommittedStep(ss[k - 1], sts[k - 1]);
      assert ss[k - 1 + 1] == Apply(ss[k - 1], sts[k - 1]);
    }
  }

  /** Admission over every interleaving: no operation runs during a commit, so end_op's panic is out
      of reach; the log has room for all that the running operations may still add; and a process
      asleep in begin_op would have to wait again, for a commit or for an operation that runs. */
  lemma AdmissionSafe(ss: seq<Sys>, sts: seq<Step>, k: nat, id: nat)
    requires Run(ss, sts) && k <= |sts|
    ensures var s := ss[k];
      && (s.j.phase.Committing? ==> s.ops == map[])
      && (id in s.ops ==> s.j.phase.Running? && id < NPROC && s.ops[id] <= MAXOPBLOCKS)
      && |s.j.lh| <= |s.j.lh| + Unspent(s.ops, NPROC) <= LOGSIZE
      && (id in s.asleep ==> Blocked(s) && (s.j.phase.Committing? || |s.ops| >= 1))
  {
    RunKeeps(ss, sts, k);
    UnspentAtLeast(ss[k].ops, NPROC, id);
    if |ss[k].ops| == 0 { assert ss[k].ops == map[]; }
  }

  /** A commit point is reached only while no operation is between begin_op and end_op. */
  lemma CommitPointIsQuiet(s: Sys)
    requires Inv(s) && Enabled(s, WriteHead)
    ensures s.ops == map[] && forall b :: b in s.cache ==> !s.cache[b].dirty
  {
    forall b | b in s.cache ensures !s.cache[b].dirty {
      assert BufOk(s.j, s.ops.Keys, b, s.cache[b]);
    }
  }

  /** Crash safety over every interleaving: whatever happened before, a crash now, then any number of
      interrupted recoveries and a completed one, restores for every home block exactly the contents
      that were visible at the latest commit point. */
  lemma CrashSafe(ss: seq<Sys>, sts: seq<Step>, k: nat, ks: seq<nat>, e: Disk)
    requires Run(ss, sts) && k <= |sts|
    requires Chain(ss[0].j.g, ss[k].j.disk, ks, e)
    ensures HeaderOk(ss[0].j.g, e)
    ensures SameHome(ss[0].j.g, Recovered(ss[0].j.g, e), LastCommit(ss, sts, k))
  {
    RunKeeps(ss, sts, k);
    Durable(ss[k].j);
    ChainKeepsRecovered(ss[0].j.g, ss[k].j.disk, ks, e);
    assert SameHome(ss[0].j.g, Recovered(ss[0].j.g, ss[k].j.disk), ss[k].j.committed);
  }

  // ---------------------------------------------------------------- whole operations

  /** The end_op that started the commit of state k, or an earlier one: the latest that left no operation. */
  ghost function LastEnd(ss: seq<Sys>, sts: seq<Step>, k: nat): (e: nat)
    requires |ss| == |sts| + 1 && k <= |sts|
    ensures e <= k
  {
    if k == 0 || (sts[k - 1].End? && ss[k].ops == map[]) then k else LastEnd(ss, sts, k - 1)
  }

  /** The state whose logical disk is durable after k steps: the end of the operations of the latest commit
      whose header is written. */
  ghost function CommitPoint(ss: seq<Sys>, sts: seq<Step>, k: nat): (e: nat)
    requires |ss| == |sts| + 1 && k <= |sts|
    ensures e <= k
  {
    if k == 0 then 0
    else if sts[k - 1].WriteHead? then LastEnd(ss, sts, k - 1)
    else CommitPoint(ss, sts, k - 1)
  }

  function Set(d: Disk, b: nat, x: Block): (r: Disk)
    ensures |r| == |d|
  {
    if b < |d| then d[b := x] else d
  }

  /** The logical disk: the initial one with all changes that operations made, in order; a crash takes back
      what came after the commit point. Neither cache nor log occur in it. */
  ghost function Logical(ss: seq<Sys>, sts: seq<Step>, k: nat): (d: Disk)
    requires |ss| == |sts| + 1 && k <= |sts|
    ensures |d| == |ss[0].j.disk|
    decreases k
  {
    if k == 0 then ss[0].j.disk
    else
      match sts[k - 1]
      case Modify(b, _, x) => Set(Logical(ss, sts, k - 1), b, x)
      case Crash => Logical(ss, sts, CommitPoint(ss, sts, k - 1))
      case _ => Logical(ss, sts, k - 1)
  }

  ghost predicate ShowsLogical(s: Sys, d: Disk) {
    |d| == |s.j.disk| && forall b :: 0 <= b < |d| && !InLog(s.j.g, b) ==> Contents(s, b) == d[b]
  }

  /** A state in terms of logical disks: what is durable is `point`, and readers see d, which recovery is
      about to restore while it runs. */
  ghost predicate Sees(s: Sys, point: Disk, d: Disk) {
    && SameHome(s.j.g, s.j.committed, point)
    && if Restoring(s) then SameHome(s.j.g, s.j.committed, d) else ShowsLogical(s, d)
  }

  /** State k in terms of the logical disks of the run; a commit is about the one that the last end_op left. */
  ghost predicate Refines(ss: seq<Sys>, sts: seq<Step>, k: nat)
    requires |ss| == |sts| + 1 && k <= |sts|
  {
    && Sees(ss[k], Logical(ss, sts, CommitPoint(ss, sts, k)), Logical(ss, sts, k))
    && ss[CommitPoint(ss, sts, k)].ops == map[] && ss[LastEnd(ss, sts, k)].ops == map[]
    && (ss[k].j.phase.Committing? ==> Logical(ss, sts, LastEnd(ss, sts, k)) == Logical(ss, sts, k))
  }

  lemma SameSize(s: Sys, st: Step)
    requires Enabled(s, st)
    ensures |Apply(s, st).j.disk| == |s.j.disk| && Apply(s, st).j.g == s.j.g
  {
  }

  lemma ModifyShows(s: Sys, b: nat, id: nat, x: Block, d: Disk)
    requires Inv(s) && Enabled(s, Modify(b, id, x)) && ShowsLogical(s, d)
    ensures ShowsLogical(Apply(s, Modify(b, id, x)), Set(d, b, x))
  {
    var t := Apply(s, Modify(b, id, x));
    assert BufOk(s.j, s.ops.Keys, b, s.cache[b]);
    forall c | 0 <= c < |d| && !InLog(s.j.g, c) ensures Contents(t, c) == Set(d, b, x)[c] {
      if c != b { ContentsKept(s, Modify(b, id, x), c); }
    }
  }

  lemma OtherShows(s: Sys, st: Step, d: Disk)
    requires Inv(s) && Enabled(s, st) && ShowsLogical(s, d) && !st.Modify? && !st.Crash? && !st.RecoverWrite?
    ensures ShowsLogical(Apply(s, st), d)
  {
    SameSize(s, st);
    forall c | 0 <= c < |d| && !InLog(s.j.g, c) ensures Contents(Apply(s, st), c) == d[c] {
      ContentsKept(s, st, c);
    }
  }

  /** Recovery ends with the durable contents in sight. */
  lemma RecoveredShows(s: Sys, d: Disk)
    requires Inv(s) && Enabled(s, RecoverDone) && SameHome(s.j.g, s.j.committed, d)
    ensures ShowsLogical(Apply(s, RecoverDone), d)
  {
    var t := Apply(s, RecoverDone);
    StepKeeps(s, RecoverDone);
    forall c | 0 <= c < |d| && !InLog(s.j.g, c) ensures Contents(t, c) == d[c] {
      QuiescentDurable(t, c);
    }
  }

  lemma CommitShows(s: Sys, d: Disk)
    requires ShowsLogical(s, d)
    ensures SameHome(s.j.g, AllContents(s), d)
  {
  }

  /** One step: what is durable changes at the header write only, to what readers see then. */
  lemma SeesStep(s: Sys, st: Step, point: Disk, d: Disk, d': Disk)
    requires Inv(s) && Enabled(s, st) && Sees(s, point, d)
    requires d' == if st.Modify? then Set(d, st.b, st.data) else if st.Crash? then point else d
    ensures Sees(Apply(s, st), if st.WriteHead? then d else point, d')
  {
    SameSize(s, st);
    CommittedStep(s, st);
    StaysUp(s, st);
    if st.Modify? { ModifyShows(s, st.b, st.id, st.data, d); }
    else if st.RecoverDone? { RecoveredShows(s, d); }
    else if !st.Crash? && !Restoring(s) {
      if st.WriteHead? { CommitShows(s, d); }
      OtherShows(s, st, d);
    }
  }

  /** Between a crash and the end of the recovery. */
  predicate Restoring(s: Sys) { s.j.phase.Booting? || s.j.phase.Recovering? }

  lemma StaysUp(s: Sys, st: Step)
    requires PhaseOk(s) && Enabled(s, st)
    ensures Restoring(Apply(s, st)) <==> st.Crash? || (Restoring(s) && !st.RecoverDone?)
    ensures Restoring(s) ==> !st.Modify? && !st.WriteHead?
    ensures st.RecoverDone? || st.RecoverWrite? ==> Restoring(s)
  {
  }

  /** While a commit runs nothing changes the logical disk. */
  lemma CommitStays(s: Sys, st: Step)
    requires PhaseOk(s) && Enabled(s, st) && Apply(s, st).j.phase.Committing?
    ensures !st.Modify? && !st.Crash? && (s.j.phase.Committing? || (st.End? && Apply(s, st).ops == map[]))
  {
  }

  lemma RefinesStep(ss: seq<Sys>, sts: seq<Step>, k: nat)
    requires Run(ss, sts) && 0 < k <= |sts| && Inv(ss[k - 1]) && Refines(ss, sts, k - 1)
    ensures Refines(ss, sts, k)
  {
    var s, st := ss[k - 1], sts[k - 1];
    assert ss[k - 1 + 1] == Apply(s, st);
    SeesStep(s, st, Logical(ss, sts, CommitPoint(ss, sts, k - 1)), Logical(ss, sts, k - 1), Logical(ss, sts, k));
    if ss[k].j.phase.Committing? { CommitStays(s, st); }
  }

  lemma {:induction false} RunRefines(ss: seq<Sys>, sts: seq<Step>, k: nat)
    requires Run(ss, sts) && k <= |sts|
    ensures Refines(ss, sts, k)
  {
    if k == 0 {
    } else {
      RunRefines(ss, sts, k - 1);
      RunKeeps(ss, sts, k - 1);
      RefinesStep(ss, sts, k);
    }
  }

  /** The cache and the log are transparent over every run: outside recovery, bread shows for every home
      block the logical disk. */
  lemma Transparent(ss: seq<Sys>, sts: seq<Step>, k: nat, b: nat)
    requires Run(ss, sts) && k <= |sts| && b < |ss[k].j.disk| && !InLog(ss[k].j.g, b)
    requires ss[k].j.phase.Running? || ss[k].j.phase.Committing?
    ensures |Logical(ss, sts, k)| == |ss[k].j.disk| && Contents(ss[k], b) == Logical(ss, sts, k)[b]
  {
    RunRefines(ss, sts, k);
  }

  /** Crash safety in terms of whole operations: a crash after any k steps, then any number of interrupted
      recoveries and a completed one, restores the logical disk as it was when the operations of the latest
      committed transaction had all ended, with no operation half done. */
  lemma CrashKeepsOperations(ss: seq<Sys>, sts: seq<Step>, k: nat, ks: seq<nat>, e: Disk)
    requires Run(ss, sts) && k <= |sts|
    requires Chain(ss[0].j.g, ss[k].j.disk, ks, e)
    ensures var c := CommitPoint(ss, sts, k);
      && ss[c].ops == map[] && HeaderOk(ss[0].j.g, e)
      && SameHome(ss[0].j.g, Recovered(ss[0].j.g, e), Logical(ss, sts, c))
  {
    RunRefines(ss, sts, k);
    RunKeeps(ss, sts, k);
    CrashSafe(ss, sts, k, ks, e);
  }
}
