/** The buffers of kernel/bio.c under the state machine of module LogSystem: NBUF buffers on a ring through a
    list head, searched and relinked as bget and brelse do, refine the cache keyed by block number. */
module RingCache {
  import opened LogDisk
  import B = BufferCache
  import L = LogSystem

  /** bcache, with buffers named by position and position NBUF the list head. `order` is the ring as `next`
      walks it from the head, and `index` says which buffer names which (dev, blockno); Valid makes both
      a matter of the other fields. */
  datatype Ring = Ring(buf: seq<B.Buffer>, next: seq<nat>, prev: seq<nat>, order: seq<nat>, index: map<(nat, nat), nat>)

  /** One ring through all buffers and the head, no two buffers for one block, and no reference to a buffer that
      never had a block. */
  ghost predicate Valid(c: Ring) {
    && |c.buf| == L.NBUF && |c.next| == L.NBUF + 1 && B.Linked(c.next, c.prev, c.order) && c.order[0] == L.NBUF
    && (forall i :: 0 <= i <= L.NBUF ==> i in c.order)
    && B.IndexOk(c.buf, c.index) && (forall k :: k in c.index ==> k.0 == B.ROOTDEV)
    && (forall i :: 0 <= i < L.NBUF && c.buf[i].dev == 0 ==> c.buf[i].refcnt == 0)
  }

  predicate Cached(c: Ring, b: nat) { (B.ROOTDEV, b) in c.index && c.index[(B.ROOTDEV, b)] < |c.buf| }

  /** The buffer of a cached block. */
  function At(c: Ring, b: nat): B.Buffer
    requires Cached(c, b)
  {
    c.buf[c.index[(B.ROOTDEV, b)]]
  }

  function Put(c: Ring, b: nat, x: B.Buffer): Ring
    requires Cached(c, b)
  {
    c.(buf := c.buf[c.index[(B.ROOTDEV, b)] := x])
  }

  /** Buffer i is given to block b, as the second loop of bget does it. */
  function Recycle(c: Ring, i: nat, b: nat): Ring
    requires i < |c.buf|
  {
    var x := B.Buffer(B.ROOTDEV, b, 1, false, false, c.buf[i].data);
    c.(buf := c.buf[i := x], index := B.Reindexed(c.index, c.buf[i], (B.ROOTDEV, b), i))
  }

  /** The buffer that bget recycles: unreferenced, and every one used less recently is referenced. */
  ghost predicate Victim(c: Ring, i: nat) {
    && i < |c.buf| && c.buf[i].refcnt == 0
    && forall p, q :: 0 <= p < q < |c.order| && c.order[p] == i ==>
      c.order[q] < |c.buf| && c.buf[c.order[q]].refcnt > 0
  }

  /** The relinking at the end of brelse. */
  ghost predicate Fronts(c: Ring, i: nat, d: Ring) {
    && d.buf == c.buf && d.index == c.index
    && exists k :: 1 <= k < |c.order| && c.order[k] == i && FrontsAt(c, k, d)
  }

  ghost predicate FrontsAt(c: Ring, k: nat, d: Ring) {
    && k < |c.order| && c.order[k] < |c.next| == |c.prev|
    && c.next[c.order[k]] < |c.prev| && c.prev[c.order[k]] < |c.next|
    && var u := B.Unlink(c.next, c.prev, c.order[k]);
    && c.order[0] < |u.0| && u.0[c.order[0]] < |u.1|
    && (d.next, d.prev) == B.LinkFront(u.0, u.1, c.order[0], c.order[k])
    && |B.Without(c.order, k)| > 0 && d.order == B.Fronted(B.Without(c.order, k), c.order[k])
  }

  /** bcache after binit: nothing cached, nothing referenced. */
  ghost predicate Booted(c: Ring) {
    Valid(c) && c.index == map[] && forall i :: 0 <= i < |c.buf| ==> c.buf[i].dev == 0 && c.buf[i].refcnt == 0
  }

  /** A buffer and its entry in the keyed cache. */
  predicate Same(x: B.Buffer, y: L.Buf) {
    x.valid == y.valid && x.refcnt == y.refcnt && x.data == y.data && (x.locked <==> y.holder != L.Nobody)
  }

  /** The ring caches exactly the blocks that the keyed cache has, with the same fields. */
  ghost predicate Rep(c: Ring, cache: map<nat, L.Buf>) {
    && (forall b :: b in cache <==> Cached(c, b))
    && (forall b :: b in cache ==> Same(At(c, b), cache[b]))
  }

  // ---------------------------------------------------------------- steps

  datatype Target = NoBuffer | Buffer(b: nat)

  /** The block whose buffer a step changes, for the steps on a buffer that is there already. */
  function Touched(s: L.Sys, st: L.Step): Target
    requires L.Enabled(s, st)
  {
    match st
    case Hit(b) => Buffer(b)
    case Acquire(b, _) => Buffer(b)
    case Fill(b) => Buffer(b)
    case Unlock(b) => Buffer(b)
    case Drop(b) => Buffer(b)
    case Modify(b, _, _) => Buffer(b)
    case LogWrite(b, _) => Buffer(b)
    case CopyLog(i) => Buffer(s.j.g.start + 1 + i)
    case WriteHead => Buffer(s.j.g.start)
    case Install(i) => Buffer(s.j.lh[i])
    case ClearHead => Buffer(s.j.g.start)
    case RecoverWrite(i) => Buffer(s.j.lh[i])
    case RecoverClear => Buffer(s.j.g.start)
    case _ => NoBuffer
  }

  /** What the step makes of that buffer: refcnt, valid, lock and data as bget, bread, bwrite, brelse, bpin,
      bunpin and their callers in log.c set them. */
  ghost function Changed(c: Ring, s: L.Sys, st: L.Step): B.Buffer
    requires Rep(c, s.cache) && L.Enabled(s, st) && Touched(s, st).Buffer?
  {
    var x, header := At(c, Touched(s, st).b), s.j.g.start;
    match st
    case Hit(_) => x.(refcnt := x.refcnt + 1)
    case Acquire(_, _) => x.(locked := true)
    case Fill(b) => x.(valid := true, data := s.j.disk[b])
    case Unlock(_) => x.(locked := false)
    case Drop(_) => x.(refcnt := x.refcnt - 1)
    case Modify(_, _, data) => x.(data := data)
    case LogWrite(b, _) => if b in s.j.lh then x else x.(refcnt := x.refcnt + 1)
    case CopyLog(i) => x.(data := At(c, s.j.lh[i]).data)
    case WriteHead => x.(data := WithHeader(x.data, s.j.lh))
    case Install(i) => x.(data := At(c, header + 1 + i).data, refcnt := x.refcnt - 1)
    case RecoverWrite(i) => x.(data := At(c, header + 1 + i).data)
    case ClearHead => x.(data := WithHeader(x.data, []))
    case RecoverClear => x.(data := WithHeader(x.data, []))
    case _ => x
  }

  /** bget's step for block b when it recycles buffer i. */
  function RecycleStep(c: Ring, i: nat, b: nat): L.Step
    requires i < |c.buf|
  {
    if c.buf[i].dev == 0 then L.Fresh(b, c.buf[i].data) else L.Miss(b, c.buf[i].blockno, c.buf[i].data)
  }

  /** The ring takes the step: the touched buffer changes, and goes to the front of the ring when brelse drops its
      last reference; bget recycles the least recently used unreferenced buffer; a crash ends in binit. */
  ghost predicate Moves(c: Ring, s: L.Sys, st: L.Step, d: Ring)
    requires Rep(c, s.cache) && L.Enabled(s, st)
  {
    if Touched(s, st).Buffer? then
      var b, x := Touched(s, st).b, Changed(c, s, st);
      if st.Drop? && x.refcnt == 0 then Fronts(Put(c, b, x), c.index[(B.ROOTDEV, b)], d) else d == Put(c, b, x)
    else if st.Miss? || st.Fresh? then
      exists i: nat :: Victim(c, i) && st == RecycleStep(c, i, st.b) && d == Recycle(c, i, st.b)
    else if st.Crash? then Booted(d) else d == c
  }

  // ---------------------------------------------------------------- every step refines

  lemma PutKeeps(c: Ring, cache: map<nat, L.Buf>, b: nat, x: B.Buffer, y: L.Buf)
    requires Valid(c) && Rep(c, cache) && b in cache && B.Key(x) == B.Key(At(c, b)) && Same(x, y)
    ensures Valid(Put(c, b, x)) && Rep(Put(c, b, x), cache[b := y])
  {
    B.UpdateIndex(c.buf, c.index, c.index[(B.ROOTDEV, b)], x);
    var d := Put(c, b, x);
    forall e | e in cache ensures Same(At(d, e), cache[b := y][e]) {
      assert Cached(c, e) && Same(At(c, e), cache[e]);
    }
  }

  lemma FrontsKeeps(c: Ring, i: nat, d: Ring, cache: map<nat, L.Buf>)
    requires Valid(c) && Rep(c, cache) && Fronts(c, i, d)
    ensures Valid(d) && Rep(d, cache)
  {
    var k :| 1 <= k < |c.order| && c.order[k] == i && FrontsAt(c, k, d);
    B.MoveToFront(c.next, c.prev, c.order, k);
    forall b | b in cache ensures Cached(d, b) && Same(At(d, b), cache[b]) {
      assert Cached(c, b) && Same(At(c, b), cache[b]);
    }
    forall b | Cached(d, b) ensures b in cache { assert Cached(c, b); }
  }

  /** The cache that the keyed machine has after it gave a buffer to block b. */
  function Given(cache: map<nat, L.Buf>, was: B.Buffer, b: nat): map<nat, L.Buf> {
    (if was.dev == 0 then cache else cache - {was.blockno})[b := L.Buf(false, 1, was.data, L.Nobody, false, 1, 0)]
  }

  lemma RecycleKeeps(c: Ring, cache: map<nat, L.Buf>, i: nat, b: nat)
    requires Valid(c) && Rep(c, cache) && i < |c.buf| && !Cached(c, b)
    ensures Valid(Recycle(c, i, b)) && Rep(Recycle(c, i, b), Given(cache, c.buf[i], b))
  {
    var d := Recycle(c, i, b);
    B.RecycleIndex(c.buf, c.index, i, d.buf[i]);
    var m := Given(cache, c.buf[i], b);
    forall e | e in m ensures Cached(d, e) && Same(At(d, e), m[e]) {
      if e != b { assert Cached(c, e) && Same(At(c, e), cache[e]); }
    }
    forall e | Cached(d, e) ensures e in m {
      if e != b { assert Cached(c, e); }
    }
  }

  lemma TouchKeeps(c: Ring, s: L.Sys, st: L.Step)
    requires Valid(c) && Rep(c, s.cache) && L.Enabled(s, st) && Touched(s, st).Buffer?
    ensures Touched(s, st).b in s.cache && Cached(c, Touched(s, st).b)
    ensures var b := Touched(s, st).b;
      Valid(Put(c, b, Changed(c, s, st))) && Rep(Put(c, b, Changed(c, s, st)), L.Apply(s, st).cache)
  {
    ChangedSame(c, s, st);
    OneTouched(s, st);
    var b := Touched(s, st).b;
    var y := L.Apply(s, st).cache[b];
    assert Fold(0) == 0;
    PutKeeps(c, s.cache, b, Changed(c, s, st), y);
  }

  lemma OneTouched(s: L.Sys, st: L.Step)
    requires L.Enabled(s, st) && Touched(s, st).Buffer?
    ensures var b := Touched(s, st).b;
      b in s.cache && b in L.Apply(s, st).cache && L.Apply(s, st).cache == s.cache[b := L.Apply(s, st).cache[b]]
  {
  }

  /** The changed buffer is the entry that the keyed machine has after the step. */
  ghost predicate AgreeBody(c: Ring, s: L.Sys, st: L.Step)
    requires Rep(c, s.cache) && L.Enabled(s, st) && Touched(s, st).Buffer?
  {
    && Touched(s, st).b in s.cache && Touched(s, st).b in L.Apply(s, st).cache
    && B.Key(Changed(c, s, st)) == B.Key(At(c, Touched(s, st).b))
    && Same(Changed(c, s, st), L.Apply(s, st).cache[Touched(s, st).b])
  }

  function Fold(z: int): int { z }

  /** The same, kept folded until Fold(0) is named. */
  ghost predicate Agree(c: Ring, s: L.Sys, st: L.Step) {
    forall z: int {:trigger Fold(z)} :: z == 0 ==>
      Rep(c, s.cache) && L.Enabled(s, st) && Touched(s, st).Buffer? && AgreeBody(c, s, st)
  }

  lemma ChangedSame(c: Ring, s: L.Sys, st: L.Step)
    requires Rep(c, s.cache) && L.Enabled(s, st) && Touched(s, st).Buffer?
    ensures Agree(c, s, st)
  {
    if st.CopyLog? { CopyLogSame(c, s, st.i); }
    else if st.Install? { InstallSame(c, s, st.i); }
    else if st.RecoverWrite? { RecoverSame(c, s, st.i); }
    else if st.WriteHead? || st.ClearHead? || st.RecoverClear? { HeaderSame(c, s, st); }
    else { CacheSame(c, s, st); }
  }

  lemma CacheSame(c: Ring, s: L.Sys, st: L.Step)
    requires Rep(c, s.cache) && L.Enabled(s, st) && Touched(s, st).Buffer? && (L.CacheStep(st) || st.LogWrite?)
    ensures Agree(c, s, st)
  {
    assert Same(At(c, Touched(s, st).b), s.cache[Touched(s, st).b]);
    assert AgreeBody(c, s, st);
  }

  lemma HeaderSame(c: Ring, s: L.Sys, st: L.Step)
    requires Rep(c, s.cache) && L.Enabled(s, st) && (st.WriteHead? || st.ClearHead? || st.RecoverClear?)
    ensures Agree(c, s, st)
  {
    assert Same(At(c, s.j.g.start), s.cache[s.j.g.start]);
    assert AgreeBody(c, s, st);
  }

  lemma CopyLogSame(c: Ring, s: L.Sys, i: nat)
    requires Rep(c, s.cache) && L.Enabled(s, L.CopyLog(i))
    ensures Agree(c, s, L.CopyLog(i))
  {
    assert Same(At(c, s.j.lh[i]), s.cache[s.j.lh[i]]);
    assert Same(At(c, s.j.g.start + 1 + i), s.cache[s.j.g.start + 1 + i]);
    assert AgreeBody(c, s, L.CopyLog(i));
  }

  lemma InstallSame(c: Ring, s: L.Sys, i: nat)
    requires Rep(c, s.cache) && L.Enabled(s, L.Install(i))
    ensures Agree(c, s, L.Install(i))
  {
    assert Same(At(c, s.j.lh[i]), s.cache[s.j.lh[i]]);
    assert Same(At(c, s.j.g.start + 1 + i), s.cache[s.j.g.start + 1 + i]);
    assert AgreeBody(c, s, L.Install(i));
  }

  lemma RecoverSame(c: Ring, s: L.Sys, i: nat)
    requires Rep(c, s.cache) && L.Enabled(s, L.RecoverWrite(i))
    ensures Agree(c, s, L.RecoverWrite(i))
  {
    assert Same(At(c, s.j.lh[i]), s.cache[s.j.lh[i]]);
    assert Same(At(c, s.j.g.start + 1 + i), s.cache[s.j.g.start + 1 + i]);
    assert AgreeBody(c, s, L.RecoverWrite(i));
  }

  lemma RecycleApplies(c: Ring, s: L.Sys, i: nat, b: nat)
    requires Rep(c, s.cache) && i < |c.buf| && L.Enabled(s, RecycleStep(c, i, b))
    ensures L.Apply(s, RecycleStep(c, i, b)).cache == Given(s.cache, c.buf[i], b) && !Cached(c, b)
  {
  }

  lemma BgetKeeps(c: Ring, s: L.Sys, st: L.Step, d: Ring)
    requires Valid(c) && Rep(c, s.cache) && L.Enabled(s, st) && (st.Miss? || st.Fresh?) && Moves(c, s, st, d)
    ensures Valid(d) && Rep(d, L.Apply(s, st).cache)
  {
    var i: nat :| Victim(c, i) && st == RecycleStep(c, i, st.b) && d == Recycle(c, i, st.b);
    RecycleApplies(c, s, i, st.b);
    RecycleKeeps(c, s.cache, i, st.b);
  }

  /** Every step that the buffers on the ring take is a step of the keyed cache, and they stay on one ring with one
      buffer for a block. */
  lemma StepRefines(c: Ring, s: L.Sys, st: L.Step, d: Ring)
    requires Valid(c) && Rep(c, s.cache) && L.Enabled(s, st) && Moves(c, s, st, d)
    ensures Valid(d) && Rep(d, L.Apply(s, st).cache)
  {
    if Touched(s, st).Buffer? {
      TouchKeeps(c, s, st);
      var b, x := Touched(s, st).b, Changed(c, s, st);
      if st.Drop? && x.refcnt == 0 {
        FrontsKeeps(Put(c, b, x), c.index[(B.ROOTDEV, b)], d, L.Apply(s, st).cache);
      }
    } else if st.Miss? || st.Fresh? {
      BgetKeeps(c, s, st, d);
    }
  }

  // ---------------------------------------------------------------- bget is always one of the steps

  lemma {:induction false} Few(c: Ring, ids: set<nat>, slots: set<nat>)
    requires B.IndexOk(c.buf, c.index)
    requires forall b :: b in ids ==> Cached(c, b) && c.index[(B.ROOTDEV, b)] in slots
    ensures |ids| <= |slots|
    decreases ids
  {
    if ids == {} {
    } else {
      var b :| b in ids;
      var i := c.index[(B.ROOTDEV, b)];
      forall e | e in ids - {b} ensures c.index[(B.ROOTDEV, e)] in slots - {i} {
        assert Cached(c, e) && B.Key(c.buf[c.index[(B.ROOTDEV, e)]]) == (B.ROOTDEV, e);
      }
      Few(c, ids - {b}, slots - {i});
    }
  }

  /** The n positions of bcache.buf. */
  function Slots(n: nat): (r: set<nat>)
    ensures |r| == n && forall x: nat :: x in r <==> x < n
  {
    if n == 0 then {} else Slots(n - 1) + {n - 1}
  }

  /** A buffer that never had a block leaves room in the keyed cache. */
  lemma RoomLeft(c: Ring, cache: map<nat, L.Buf>, i: nat)
    requires Valid(c) && Rep(c, cache) && i < |c.buf| && c.buf[i].dev == 0
    ensures |cache| < L.NBUF
  {
    FewerThan(c, cache.Keys, |c.buf|, i);
    assert |cache| == |cache.Keys|;
  }

  lemma FewerThan(c: Ring, ids: set<nat>, n: nat, i: nat)
    requires B.IndexOk(c.buf, c.index) && i < |c.buf| == n && c.buf[i].dev == 0
    requires forall b :: b in ids ==> Cached(c, b)
    ensures |ids| < n
  {
    var rest := Slots(n) - {i};
    forall b | b in ids ensures c.index[(B.ROOTDEV, b)] in rest { assert Cached(c, b); }
    Few(c, ids, rest);
  }

  /** bget for block b, whatever it finds: with the block cached it is a Hit; otherwise recycling the victim is a
      Miss or a Fresh that the ring can take. */
  lemma BgetRefines(c: Ring, s: L.Sys, b: nat, i: nat)
    requires Valid(c) && Rep(c, s.cache) && b < |s.j.disk|
    ensures Cached(c, b) ==> L.Enabled(s, L.Hit(b))
    ensures !Cached(c, b) && Victim(c, i) ==>
      L.Enabled(s, RecycleStep(c, i, b)) && Moves(c, s, RecycleStep(c, i, b), Recycle(c, i, b))
  {
    if !Cached(c, b) && Victim(c, i) {
      if c.buf[i].dev == 0 {
        RoomLeft(c, s.cache, i);
      } else {
        assert Cached(c, c.buf[i].blockno);
      }
    }
  }

  lemma {:induction false} Many(c: Ring, slots: set<nat>, ids: set<nat>)
    requires B.IndexOk(c.buf, c.index)
    requires forall i :: i in slots ==> i < |c.buf| && c.buf[i].dev == B.ROOTDEV && c.buf[i].blockno in ids
    ensures |slots| <= |ids|
    decreases slots
  {
    if slots == {} {
    } else {
      var i :| i in slots;
      forall j | j in slots - {i} ensures c.buf[j].blockno in ids - {c.buf[i].blockno} {
        assert B.Key(c.buf[i]) in c.index && B.Key(c.buf[j]) in c.index;
      }
      Many(c, slots - {i}, ids - {c.buf[i].blockno});
    }
  }

  /** With every buffer referenced the keyed cache is full. */
  lemma NoRoomLeft(c: Ring, cache: map<nat, L.Buf>, n: nat)
    requires Valid(c) && Rep(c, cache) && B.Exhausted(c.buf) && n == |c.buf|
    ensures |cache| >= n
  {
    forall i: nat | i in Slots(n) ensures c.buf[i].dev == B.ROOTDEV && c.buf[i].blockno in cache.Keys {
      assert B.Key(c.buf[i]) in c.index;
      assert Cached(c, c.buf[i].blockno);
    }
    Many(c, Slots(n), cache.Keys);
    assert |cache| == |cache.Keys|;
  }

  /** The panic of bget: with every buffer referenced and the block not cached no step of bget is left; with some
      buffer unreferenced there is a victim. */
  lemma BgetPanics(c: Ring, s: L.Sys, b: nat, victim: nat, junk: Block)
    requires Valid(c) && Rep(c, s.cache) && !Cached(c, b) && B.Exhausted(c.buf)
    ensures !L.Enabled(s, L.Hit(b)) && !L.Enabled(s, L.Miss(b, victim, junk)) && !L.Enabled(s, L.Fresh(b, junk))
    ensures forall i :: !Victim(c, i)
  {
    if victim in s.cache { assert Same(At(c, victim), s.cache[victim]); }
    NoRoomLeft(c, s.cache, |c.buf|);
  }

  lemma VictimExists(c: Ring, k: nat) returns (i: nat)
    requires Valid(c) && !B.Exhausted(c.buf) && k < |c.order|
    requires forall q :: k < q < |c.order| ==> c.order[q] < |c.buf| && c.buf[c.order[q]].refcnt > 0
    ensures Victim(c, i)
    decreases k
  {
    i := c.order[k];
    if k == 0 {
      var x :| 0 <= x < |c.buf| && c.buf[x].refcnt == 0;
      assert x in c.order;
    } else if c.buf[i].refcnt > 0 {
      i := VictimExists(c, k - 1);
    }
  }

  // ---------------------------------------------------------------- whole runs

  ghost predicate RingRun(cs: seq<Ring>, ss: seq<L.Sys>, sts: seq<L.Step>) {
    && L.Run(ss, sts) && |cs| == |ss| && Booted(cs[0])
    && forall k :: 0 <= k < |sts| && Rep(cs[k], ss[k].cache) ==> Moves(cs[k], ss[k], sts[k], cs[k + 1])
  }

  /** On every run the buffers are one ring with one buffer for a block, and they are the keyed cache. */
  lemma {:induction false} RunRefines(cs: seq<Ring>, ss: seq<L.Sys>, sts: seq<L.Step>, k: nat)
    requires RingRun(cs, ss, sts) && k <= |sts|
    ensures Valid(cs[k]) && Rep(cs[k], ss[k].cache)
  {
    if k == 0 {
    } else {
      RunRefines(cs, ss, sts, k - 1);
      StepRefines(cs[k - 1], ss[k - 1], sts[k - 1], cs[k - 1 + 1]);
      assert ss[k - 1 + 1] == L.Apply(ss[k - 1], sts[k - 1]);
    }
  }

  /** Step st is a brelse that drops the last reference to buffer i. */
  predicate LetsGo(c: Ring, st: L.Step, i: nat) {
    st.Drop? && Cached(c, st.b) && c.index[(B.ROOTDEV, st.b)] == i && At(c, st.b).refcnt == 1
  }

  /** When buffer i was last let go, before step k; -1 if not since the machine started. */
  ghost function LastUse(cs: seq<Ring>, sts: seq<L.Step>, k: nat, i: nat): (r: int)
    requires k <= |sts| < |cs|
    ensures -1 <= r < k
  {
    if k == 0 || sts[k - 1].Crash? then -1
    else if LetsGo(cs[k - 1], sts[k - 1], i) then k - 1
    else LastUse(cs, sts, k - 1, i)
  }

  /** The ring from the head on goes from the buffers let go last to those let go first. */
  ghost predicate ByUse(cs: seq<Ring>, sts: seq<L.Step>, k: nat, order: seq<nat>)
    requires k <= |sts| < |cs|
  {
    forall p, q :: 1 <= p < q < |order| ==> LastUse(cs, sts, k, order[p]) >= LastUse(cs, sts, k, order[q])
  }

  /** What a step does to the order: a buffer that is let go moves to the front, nothing else moves. */
  ghost predicate Reordered(c: Ring, st: L.Step, order: seq<nat>) {
    if exists j :: 1 <= j < |c.order| && LetsGo(c, st, c.order[j]) then
      exists j ::
        1 <= j < |c.order| && LetsGo(c, st, c.order[j]) && order == B.Fronted(B.Without(c.order, j), c.order[j])
    else order == c.order && forall i :: !LetsGo(c, st, i)
  }

  lemma DropMoves(c: Ring, s: L.Sys, b: nat, d: Ring)
    requires Valid(c) && Rep(c, s.cache) && L.Enabled(s, L.Drop(b)) && Moves(c, s, L.Drop(b), d)
    ensures Reordered(c, L.Drop(b), d.order)
  {
    var st := L.Drop(b);
    assert b in s.cache && Cached(c, b);
    var i := c.index[(B.ROOTDEV, b)];
    assert Changed(c, s, st) == At(c, b).(refcnt := At(c, b).refcnt - 1);
    assert i in c.order;
    var j :| 0 <= j < |c.order| && c.order[j] == i;
    assert At(c, b).refcnt == 1 ==> LetsGo(c, st, c.order[j]);
  }

  lemma OthersStay(c: Ring, s: L.Sys, st: L.Step, d: Ring)
    requires Rep(c, s.cache) && L.Enabled(s, st) && Moves(c, s, st, d) && !st.Crash? && !st.Drop?
    ensures d.order == c.order
  {
  }

  lemma NoneLetGo(c: Ring, st: L.Step)
    requires !st.Drop?
    ensures Reordered(c, st, c.order)
  {
  }

  lemma RunReorders(cs: seq<Ring>, ss: seq<L.Sys>, sts: seq<L.Step>, k: nat)
    requires RingRun(cs, ss, sts) && k < |sts| && !sts[k].Crash?
    ensures Distinct(cs[k].order) && Reordered(cs[k], sts[k], cs[k + 1].order)
  {
    RunRefines(cs, ss, sts, k);
    if sts[k].Drop? {
      DropMoves(cs[k], ss[k], sts[k].b, cs[k + 1]);
    } else {
      OthersStay(cs[k], ss[k], sts[k], cs[k + 1]);
      NoneLetGo(cs[k], sts[k]);
    }
  }

  lemma FrontedByUse(cs: seq<Ring>, sts: seq<L.Step>, k: nat, order: seq<nat>, j: nat)
    requires 0 < k <= |sts| < |cs| && ByUse(cs, sts, k - 1, order) && Distinct(order) && 1 <= j < |order|
    requires LetsGo(cs[k - 1], sts[k - 1], order[j])
    ensures ByUse(cs, sts, k, B.Fronted(B.Without(order, j), order[j]))
  {
    var now := B.Fronted(B.Without(order, j), order[j]);
    forall p, q | 1 <= p < q < |now| ensures LastUse(cs, sts, k, now[p]) >= LastUse(cs, sts, k, now[q]) {
      if p > 1 {
        var p', q' := if p - 1 < j then p - 1 else p, if q - 1 < j then q - 1 else q;
        assert now[p] == order[p'] && now[q] == order[q'] && p' < q' && p' != j && q' != j;
      }
    }
  }

  lemma UseStep(cs: seq<Ring>, sts: seq<L.Step>, k: nat, order: seq<nat>)
    requires 0 < k <= |sts| < |cs| && ByUse(cs, sts, k - 1, cs[k - 1].order) && Distinct(cs[k - 1].order)
    requires Reordered(cs[k - 1], sts[k - 1], order) && !sts[k - 1].Crash?
    ensures ByUse(cs, sts, k, order)
  {
    var c, st := cs[k - 1], sts[k - 1];
    if exists j :: 1 <= j < |c.order| && LetsGo(c, st, c.order[j]) {
      var j :| 1 <= j < |c.order| && LetsGo(c, st, c.order[j]) && order == B.Fronted(B.Without(c.order, j), c.order[j]);
      FrontedByUse(cs, sts, k, c.order, j);
    }
  }

  /** A victim is behind every other unreferenced buffer. */
  lemma VictimIsOldest(cs: seq<Ring>, sts: seq<L.Step>, k: nat, i: nat, j: nat)
    requires k <= |sts| < |cs| && Valid(cs[k]) && ByUse(cs, sts, k, cs[k].order)
    requires Victim(cs[k], i) && j < |cs[k].buf| && cs[k].buf[j].refcnt == 0
    ensures LastUse(cs, sts, k, i) <= LastUse(cs, sts, k, j)
  {
    var order := cs[k].order;
    assert i in order && j in order;
    var p :| 0 <= p < |order| && order[p] == i;
    var q :| 0 <= q < |order| && order[q] == j;
  }

  lemma {:induction false} ByUseFrom(cs: seq<Ring>, sts: seq<L.Step>, k: nat)
    requires k <= |sts| < |cs|
    requires forall j :: 0 <= j < k && !sts[j].Crash? ==>
      Distinct(cs[j].order) && Reordered(cs[j], sts[j], cs[j + 1].order)
    ensures ByUse(cs, sts, k, cs[k].order)
    decreases k
  {
    if k == 0 || sts[k - 1].Crash? {
    } else {
      ByUseFrom(cs, sts, k - 1);
      assert Reordered(cs[k - 1], sts[k - 1], cs[k - 1 + 1].order);
      UseStep(cs, sts, k, cs[k].order);
    }
  }

  /** On every run the ring is in the order of last use. */
  lemma OrderIsByUse(cs: seq<Ring>, ss: seq<L.Sys>, sts: seq<L.Step>, k: nat)
    requires RingRun(cs, ss, sts) && k <= |sts|
    ensures ByUse(cs, sts, k, cs[k].order)
  {
    forall j | 0 <= j < k && !sts[j].Crash?
      ensures Distinct(cs[j].order) && Reordered(cs[j], sts[j], cs[j + 1].order)
    {
      RunReorders(cs, ss, sts, j);
    }
    ByUseFrom(cs, sts, k);
  }

  /** So bget recycles, among the buffers that nobody references,
      one that was let go no later than any other. */
  lemma LeastRecentlyUsed(cs: seq<Ring>, ss: seq<L.Sys>, sts: seq<L.Step>, k: nat, i: nat, j: nat)
    requires RingRun(cs, ss, sts) && k <= |sts| && Victim(cs[k], i) && j < |cs[k].buf| && cs[k].buf[j].refcnt == 0
    ensures LastUse(cs, sts, k, i) <= LastUse(cs, sts, k, j)
  {
    OrderIsByUse(cs, ss, sts, k);
    RunRefines(cs, ss, sts, k);
    VictimIsOldest(cs, sts, k, i, j);
  }

  /** From log_write until install_trans reaches it, a logged block has exactly one buffer on the ring: valid,
      referenced, never the victim of bget, and with the contents that readers see. */
  lemma LoggedHasOneBuffer(cs: seq<Ring>, ss: seq<L.Sys>, sts: seq<L.Step>, k: nat, n: nat, j: nat) returns (i: nat)
    requires RingRun(cs, ss, sts) && k <= |sts| && L.InstalledCount(ss[k].j) <= n < |ss[k].j.lh|
    ensures var c, b := cs[k], ss[k].j.lh[n];
      && i < |c.buf| && B.Key(c.buf[i]) == (B.ROOTDEV, b)
      && c.buf[i].valid && c.buf[i].refcnt >= 1 && !Victim(c, i) && c.buf[i].data == L.Contents(ss[k], b)
      && (j < |c.buf| && B.Key(c.buf[j]) == (B.ROOTDEV, b) ==> j == i)
  {
    RunRefines(cs, ss, sts, k);
    L.RunKeeps(ss, sts, k);
    L.LoggedStaysCached(ss[k], n);
    var b := ss[k].j.lh[n];
    assert Same(At(cs[k], b), ss[k].cache[b]);
    i := cs[k].index[(B.ROOTDEV, b)];
    if j < |cs[k].buf| && B.Key(cs[k].buf[j]) == (B.ROOTDEV, b) { B.UniqueBuffer(cs[k].buf, cs[k].index, i, j); }
  }

  /** What the code of bget does in one go to a buffer is the step and then the lock. */
  lemma BgetIsSteps(c: Ring, b: nat, i: nat)
    requires Valid(c) && i < |c.buf|
    ensures Cached(c, b) && c.index[(B.ROOTDEV, b)] == i ==>
      Put(c, b, At(c, b).(refcnt := At(c, b).refcnt + 1, locked := true)).buf == c.buf[i := B.Taken(c.buf[i])]
    ensures !Cached(c, b) ==>
      && Cached(Recycle(c, i, b), b) && Recycle(c, i, b).index == B.Reindexed(c.index, c.buf[i], (B.ROOTDEV, b), i)
      && Put(Recycle(c, i, b), b, At(Recycle(c, i, b), b).(locked := true)).buf
         == c.buf[i := B.Recycled(c.buf[i], B.ROOTDEV, b)]
  {
  }
}
