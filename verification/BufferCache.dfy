/** The buffer cache (kernel/bio.c): NBUF buffers on a ring through a list head, kept in order of
    use, with reference counts. Buffers are named by their position in bcache.buf; position
    |buf| is bcache.head, so `next` and `prev` have one more entry than `buf`. */
module BufferCache {
  import opened LogDisk

  const ROOTDEV: nat := 1

  datatype Buffer = Buffer(dev: nat, blockno: nat, refcnt: nat, valid: bool, locked: bool, data: Block)

  // ---------------------------------------------------------------- doubly linked rings

  /** Following `next` from r[0] visits r in order and comes back, and `prev` is its inverse. */
  ghost predicate Linked(next: seq<nat>, prev: seq<nat>, r: seq<nat>) {
    && |next| == |prev| && |r| > 0 && Distinct(r)
    && (forall k :: 0 <= k < |r| ==> r[k] < |next|)
    && (forall k :: 0 <= k < |r| - 1 ==> next[r[k]] == r[k + 1])
    && (forall k :: 1 <= k < |r| ==> prev[r[k]] == r[k - 1])
    && next[r[|r| - 1]] == r[0] && prev[r[0]] == r[|r| - 1]
  }

  /** One ring through n buffers and the list head, which comes first. */
  ghost predicate Threaded(n: nat, next: seq<nat>, prev: seq<nat>, r: seq<nat>) {
    && |next| == n + 1 && Linked(next, prev, r) && r[0] == n
    && forall i :: 0 <= i <= n ==> i in r
  }

  /** b->next->prev = b->prev; b->prev->next = b->next */
  function Unlink(next: seq<nat>, prev: seq<nat>, b: nat): (l: (seq<nat>, seq<nat>))
    requires b < |next| == |prev| && next[b] < |prev| && prev[b] < |next|
    ensures |l.0| == |l.1| == |next|
  {
    (next[prev[b] := next[b]], prev[next[b] := prev[b]])
  }

  /** b->next = head.next; b->prev = &head; head.next->prev = b; head.next = b */
  function LinkFront(next: seq<nat>, prev: seq<nat>, head: nat, b: nat): (l: (seq<nat>, seq<nat>))
    requires b < |next| == |prev| && head < |next| && next[head] < |prev|
    ensures |l.0| == |l.1| == |next|
  {
    (next[b := next[head]][head := b], prev[b := head][next[head] := b])
  }

  function Without(r: seq<nat>, k: nat): (s: seq<nat>)
    requires k < |r|
    ensures |s| == |r| - 1 && forall i :: 0 <= i < |s| ==> s[i] == if i < k then r[i] else r[i + 1]
  {
    r[..k] + r[k + 1..]
  }

  function Fronted(r: seq<nat>, b: nat): (s: seq<nat>)
    requires |r| > 0
    ensures |s| == |r| + 1 && forall i :: 0 <= i < |s| ==>
      s[i] == if i == 0 then r[0] else if i == 1 then b else r[i - 1]
  {
    [r[0], b] + r[1..]
  }

  lemma FrontedMembers(r: seq<nat>, b: nat, x: nat)
    requires |r| > 0
    ensures x in Fronted(r, b) <==> x == b || x in r
  {
    var f := Fronted(r, b);
    assert f[1] == b && f[0] == r[0];
    if x in r {
      var i :| 0 <= i < |r| && r[i] == x;
      assert f[if i == 0 then 0 else i + 1] == x;
    }
  }

  /** The ring of binit after it linked buffers 0..b. */
  ghost predicate Linking(next: seq<nat>, prev: seq<nat>, r: seq<nat>, n: nat, b: nat) {
    && |next| == n + 1 && Linked(next, prev, r) && r[0] == n
    && forall i :: 0 <= i <= n ==> (i in r <==> i < b || i == n)
  }

  lemma LinkingStep(next: seq<nat>, prev: seq<nat>, r: seq<nat>, n: nat, b: nat)
    requires Linking(next, prev, r, n, b) && b < n
    ensures next[n] < |prev|
    ensures Linking(LinkFront(next, prev, n, b).0, LinkFront(next, prev, n, b).1, Fronted(r, b), n, b + 1)
  {
    LinkFrontLinked(next, prev, r, b);
    forall i | 0 <= i <= n ensures i in Fronted(r, b) <==> i < b + 1 || i == n {
      FrontedMembers(r, b, i);
    }
  }

  lemma UnlinkLinked(next: seq<nat>, prev: seq<nat>, r: seq<nat>, k: nat)
    requires Linked(next, prev, r) && 1 <= k < |r|
    ensures next[r[k]] < |prev| && prev[r[k]] < |next|
    ensures Linked(Unlink(next, prev, r[k]).0, Unlink(next, prev, r[k]).1, Without(r, k))
  {
    var after := if k == |r| - 1 then 0 else k + 1;
    assert next[r[k]] == r[after] && prev[r[k]] == r[k - 1];
  }

  lemma LinkFrontLinked(next: seq<nat>, prev: seq<nat>, r: seq<nat>, b: nat)
    requires Linked(next, prev, r) && b !in r && b < |next|
    ensures next[r[0]] < |prev|
    ensures Linked(LinkFront(next, prev, r[0], b).0, LinkFront(next, prev, r[0], b).1, Fronted(r, b))
  {
    var first := if |r| == 1 then 0 else 1;
    assert next[r[0]] == r[first];
    var f, l := Fronted(r, b), LinkFront(next, prev, r[0], b);
    FrontedDistinct(r, b);
    forall k | 0 <= k < |f| - 1 ensures l.0[f[k]] == f[k + 1] { LinkFrontNext(next, prev, r, b, k); }
    forall k | 1 <= k < |f| ensures l.1[f[k]] == f[k - 1] { LinkFrontPrev(next, prev, r, b, k); }
  }

  lemma LinkFrontNext(next: seq<nat>, prev: seq<nat>, r: seq<nat>, b: nat, k: nat)
    requires Linked(next, prev, r) && b !in r && b < |next| && k < |r|
    ensures next[r[0]] < |prev| && Fronted(r, b)[k] < |next|
    ensures LinkFront(next, prev, r[0], b).0[Fronted(r, b)[k]] == Fronted(r, b)[k + 1]
  {
    assert next[r[0]] == r[if |r| == 1 then 0 else 1];
    if k >= 2 { assert Fronted(r, b)[k] == r[k - 1] && Fronted(r, b)[k + 1] == r[k]; }
  }

  lemma LinkFrontPrev(next: seq<nat>, prev: seq<nat>, r: seq<nat>, b: nat, k: nat)
    requires Linked(next, prev, r) && b !in r && b < |next| && 1 <= k <= |r|
    ensures next[r[0]] < |prev| && Fronted(r, b)[k] < |prev|
    ensures LinkFront(next, prev, r[0], b).1[Fronted(r, b)[k]] == Fronted(r, b)[k - 1]
  {
    assert next[r[0]] == r[if |r| == 1 then 0 else 1];
    if k >= 3 { assert Fronted(r, b)[k] == r[k - 1] && Fronted(r, b)[k - 1] == r[k - 2]; }
  }

  lemma FrontedDistinct(r: seq<nat>, b: nat)
    requires |r| > 0 && Distinct(r) && b !in r
    ensures Distinct(Fronted(r, b))
  {
    var f := Fronted(r, b);
    forall i, j | 0 <= i < j < |f| ensures f[i] != f[j] {
      assert f[j] == if j == 1 then b else r[j - 1];
      assert f[i] == if i == 0 then r[0] else if i == 1 then b else r[i - 1];
    }
  }

  /** Moving a buffer to the front keeps the ring and its members. */
  lemma MoveToFront(next: seq<nat>, prev: seq<nat>, r: seq<nat>, k: nat)
    requires Linked(next, prev, r) && 1 <= k < |r|
    ensures next[r[k]] < |prev| && prev[r[k]] < |next|
    ensures var u := Unlink(next, prev, r[k]);
      && u.0[r[0]] < |u.1|
      && var l := LinkFront(u.0, u.1, r[0], r[k]);
         Linked(l.0, l.1, Fronted(Without(r, k), r[k]))
    ensures forall x :: x in r ==> x in Fronted(Without(r, k), r[k])
  {
    UnlinkLinked(next, prev, r, k);
    var u := Unlink(next, prev, r[k]);
    var w := Without(r, k);
    LinkFrontLinked(u.0, u.1, w, r[k]);
    var f := Fronted(w, r[k]);
    forall x | x in r ensures x in f {
      var i :| 0 <= i < |r| && r[i] == x;
      assert f[if i == 0 then 0 else if i < k then i + 1 else if i == k then 1 else i] == x;
    }
  }

  // ---------------------------------------------------------------- one buffer per block

  function Open(z: int): int { z }

  function Thread(z: int): int { z }

  /** Threaded, kept folded until Thread(0) is named. */
  ghost predicate OnRing(n: nat, next: seq<nat>, prev: seq<nat>, r: seq<nat>) {
    forall z: int {:trigger Thread(z)} :: z == 0 ==> Threaded(n, next, prev, r)
  }

  function Key(b: Buffer): (nat, nat) {
    (b.dev, b.blockno)
  }

  /** `index` is the inverse of the naming of buffers, so no two buffers with dev != 0 have the same
      (dev, blockno). */
  ghost predicate IndexOk(buf: seq<Buffer>, index: map<(nat, nat), nat>) {
    && (forall i :: 0 <= i < |buf| && buf[i].dev != 0 ==> Key(buf[i]) in index && index[Key(buf[i])] == i)
    && (forall k :: k in index ==> k.0 != 0 && index[k] < |buf| && Key(buf[index[k]]) == k)
  }

  lemma UniqueBuffer(buf: seq<Buffer>, index: map<(nat, nat), nat>, i: nat, j: nat)
    requires IndexOk(buf, index) && i < |buf| && j < |buf| && buf[i].dev != 0 && Key(buf[i]) == Key(buf[j])
    ensures i == j
  {
  }

  /** An unreferenced valid buffer agrees with the disk, so it may be recycled. */
  ghost predicate CleanOk(buf: seq<Buffer>, disk: Disk) {
    forall i :: 0 <= i < |buf| && buf[i].valid ==>
      && buf[i].dev == ROOTDEV && buf[i].blockno < |disk|
      && (buf[i].refcnt == 0 ==> buf[i].data == disk[buf[i].blockno])
  }

  /** No buffer is left unreferenced. */
  predicate Exhausted(buf: seq<Buffer>) {
    forall i :: 0 <= i < |buf| ==> buf[i].refcnt > 0
  }

  function IsUnused(b: Buffer): nat {
    if b.refcnt == 0 then 1 else 0
  }

  function Unused(buf: seq<Buffer>): nat {
    if buf == [] then 0 else Unused(buf[..|buf| - 1]) + IsUnused(buf[|buf| - 1])
  }

  lemma {:induction false} NoneUnused(buf: seq<Buffer>)
    ensures Unused(buf) == 0 <==> Exhausted(buf)
  {
    if buf == [] {
    } else {
      var rest := buf[..|buf| - 1];
      NoneUnused(rest);
      assert forall i :: 0 <= i < |buf| ==> buf[i] == if i < |buf| - 1 then rest[i] else buf[|buf| - 1];
    }
  }

  lemma {:induction false} UnusedUpdate(buf: seq<Buffer>, i: nat, x: Buffer)
    requires i < |buf|
    ensures Unused(buf[i := x]) == Unused(buf) - IsUnused(buf[i]) + IsUnused(x)
  {
    var n := |buf| - 1;
    if i == n {
      assert buf[i := x][..n] == buf[..n];
    } else {
      assert buf[i := x][..n] == buf[..n][i := x];
      UnusedUpdate(buf[..n], i, x);
    }
  }

  // ---------------------------------------------------------------- what a caller sees

  /** The cache as its callers see it: the contents that bread returns and the reference count of
      every block, the locked blocks with their buffers, and the number of unreferenced buffers. */
  datatype Cache = Cache(view: Disk, refs: seq<nat>, held: map<nat, nat>, unused: nat)

  /** What bread returns for block b. */
  ghost function Seen(buf: seq<Buffer>, index: map<(nat, nat), nat>, disk: Disk, b: nat): Block
    requires IndexOk(buf, index) && b < |disk|
  {
    if (ROOTDEV, b) in index && buf[index[(ROOTDEV, b)]].valid then buf[index[(ROOTDEV, b)]].data else disk[b]
  }

  /** How many references the buffer of block b has. */
  ghost function Refs(buf: seq<Buffer>, index: map<(nat, nat), nat>, b: nat): nat
    requires IndexOk(buf, index)
  {
    if (ROOTDEV, b) in index then buf[index[(ROOTDEV, b)]].refcnt else 0
  }

  ghost predicate Holds(buf: seq<Buffer>, index: map<(nat, nat), nat>, i: nat, b: nat) {
    && i < |buf| && (ROOTDEV, b) in index && index[(ROOTDEV, b)] == i
    && buf[i].dev == ROOTDEV && buf[i].blockno == b && buf[i].valid && buf[i].locked && buf[i].refcnt > 0
  }

  ghost predicate ViewOk(buf: seq<Buffer>, index: map<(nat, nat), nat>, disk: Disk, c: Cache)
    requires IndexOk(buf, index)
  {
    && |c.view| == |c.refs| == |disk|
    && (forall b {:trigger Seen(buf, index, disk, b)} :: 0 <= b < |disk| ==> c.view[b] == Seen(buf, index, disk, b))
    && (forall b {:trigger Refs(buf, index, b)} :: 0 <= b < |disk| ==> c.refs[b] == Refs(buf, index, b))
  }

  ghost predicate HeldOk(buf: seq<Buffer>, index: map<(nat, nat), nat>, n: nat, held: map<nat, nat>) {
    && (forall b :: b in held ==> b < n && Holds(buf, index, held[b], b))
    && (forall i :: 0 <= i < |buf| && buf[i].locked ==> buf[i].blockno in held && held[buf[i].blockno] == i)
  }

  ghost predicate CacheOk(buf: seq<Buffer>, index: map<(nat, nat), nat>, disk: Disk, c: Cache) {
    && IndexOk(buf, index) && CleanOk(buf, disk)
    && ViewOk(buf, index, disk, c) && HeldOk(buf, index, |disk|, c.held) && c.unused == Unused(buf)
  }

  /** CacheOk, kept folded until Open(0) is named. */
  ghost predicate Coherent(buf: seq<Buffer>, index: map<(nat, nat), nat>, disk: Disk, c: Cache) {
    forall z: int {:trigger Open(z)} :: z == 0 ==> CacheOk(buf, index, disk, c)
  }

  function Taken(b: Buffer): Buffer {
    b.(refcnt := b.refcnt + 1, locked := true)
  }

  function Recycled(b: Buffer, dev: nat, blockno: nat): Buffer {
    Buffer(dev, blockno, 1, false, true, b.data)
  }

  function Reindexed(index: map<(nat, nat), nat>, b: Buffer, key: (nat, nat), i: nat): map<(nat, nat), nat> {
    (index - {Key(b)})[key := i]
  }

  lemma UpdateIndex(buf: seq<Buffer>, index: map<(nat, nat), nat>, i: nat, x: Buffer)
    requires IndexOk(buf, index) && i < |buf| && Key(x) == Key(buf[i])
    ensures IndexOk(buf[i := x], index)
  {
  }

  lemma RecycleIndex(buf: seq<Buffer>, index: map<(nat, nat), nat>, i: nat, x: Buffer)
    requires IndexOk(buf, index) && i < |buf| && x.dev != 0 && Key(x) !in index
    ensures IndexOk(buf[i := x], Reindexed(index, buf[i], Key(x), i))
  {
  }

  /** The caller's view after buffer i of block b became x. */
  function Replaced(c: Cache, i: nat, b: nat, was: Buffer, x: Buffer): Cache
    requires b < |c.view| == |c.refs| && x.valid && c.unused + IsUnused(x) >= IsUnused(was)
  {
    Cache(c.view[b := x.data], c.refs[b := x.refcnt],
          if x.locked then c.held[b := i] else c.held - {b}, c.unused - IsUnused(was) + IsUnused(x))
  }

  lemma {:induction false} AllUnused(buf: seq<Buffer>)
    requires forall i :: 0 <= i < |buf| ==> buf[i].refcnt == 0
    ensures Unused(buf) == |buf|
  {
    if buf == [] {
    } else {
      AllUnused(buf[..|buf| - 1]);
    }
  }

  lemma UnusedPositive(buf: seq<Buffer>, i: nat)
    requires i < |buf|
    ensures Unused(buf) >= IsUnused(buf[i])
  {
    NoneUnused(buf);
  }

  lemma UpdateView(buf: seq<Buffer>, index: map<(nat, nat), nat>, disk: Disk, c: Cache, i: nat, x: Buffer)
    requires IndexOk(buf, index) && ViewOk(buf, index, disk, c) && i < |buf| && Key(x) == Key(buf[i])
    requires x.dev == ROOTDEV && x.blockno < |disk| && x.valid && c.unused + IsUnused(x) >= IsUnused(buf[i])
    ensures IndexOk(buf[i := x], index) && ViewOk(buf[i := x], index, disk, Replaced(c, i, x.blockno, buf[i], x))
  {
    UpdateIndex(buf, index, i, x);
    var c' := Replaced(c, i, x.blockno, buf[i], x);
    forall b | 0 <= b < |disk|
      ensures c'.view[b] == Seen(buf[i := x], index, disk, b) && c'.refs[b] == Refs(buf[i := x], index, b)
    {
      assert c.view[b] == Seen(buf, index, disk, b) && c.refs[b] == Refs(buf, index, b);
    }
  }

  lemma UpdateHeld(buf: seq<Buffer>, index: map<(nat, nat), nat>, n: nat, held: map<nat, nat>, i: nat, x: Buffer)
    requires IndexOk(buf, index) && HeldOk(buf, index, n, held) && i < |buf| && Key(x) == Key(buf[i])
    requires x.dev == ROOTDEV && x.blockno < n && x.valid && (x.locked ==> x.refcnt > 0)
    ensures HeldOk(buf[i := x], index, n, if x.locked then held[x.blockno := i] else held - {x.blockno})
  {
    forall j | 0 <= j < |buf| && buf[j].locked && j != i ensures buf[j].blockno != x.blockno {
      assert Holds(buf, index, held[buf[j].blockno], buf[j].blockno);
    }
  }

  /** Changing a buffer without renaming it. */
  lemma UpdateCache(buf: seq<Buffer>, index: map<(nat, nat), nat>, disk: Disk, c: Cache, i: nat, x: Buffer)
    requires CacheOk(buf, index, disk, c) && i < |buf| && Key(x) == Key(buf[i])
    requires x.dev == ROOTDEV && x.blockno < |disk| && x.valid && (x.locked ==> x.refcnt > 0)
    requires x.refcnt == 0 ==> x.data == disk[x.blockno]
    ensures c.unused >= IsUnused(buf[i])
    ensures CacheOk(buf[i := x], index, disk, Replaced(c, i, x.blockno, buf[i], x))
  {
    UnusedPositive(buf, i);
    UnusedUpdate(buf, i, x);
    UpdateView(buf, index, disk, c, i, x);
    UpdateHeld(buf, index, |disk|, c.held, i, x);
  }

  lemma RecycleView(buf: seq<Buffer>, index: map<(nat, nat), nat>, disk: Disk, c: Cache, i: nat, b: nat, x: Buffer)
    requires IndexOk(buf, index) && CleanOk(buf, disk) && ViewOk(buf, index, disk, c)
    requires i < |buf| && b < |disk| && buf[i].refcnt == 0 && (ROOTDEV, b) !in index
    requires x.dev == ROOTDEV && x.blockno == b && x.valid && x.data == disk[b]
    ensures var index' := Reindexed(index, buf[i], (ROOTDEV, b), i);
      IndexOk(buf[i := x], index') && ViewOk(buf[i := x], index', disk, c.(refs := c.refs[b := x.refcnt]))
  {
    RecycleIndex(buf, index, i, x);
    var index' := Reindexed(index, buf[i], (ROOTDEV, b), i);
    var c' := c.(refs := c.refs[b := x.refcnt]);
    forall e | 0 <= e < |disk|
      ensures c'.view[e] == Seen(buf[i := x], index', disk, e) && c'.refs[e] == Refs(buf[i := x], index', e)
    {
      assert c.view[e] == Seen(buf, index, disk, e) && c.refs[e] == Refs(buf, index, e);
    }
  }

  lemma RecycleHeld(buf: seq<Buffer>, index: map<(nat, nat), nat>, n: nat, held: map<nat, nat>, i: nat, b: nat,
    x: Buffer)
    requires IndexOk(buf, index) && HeldOk(buf, index, n, held)
    requires i < |buf| && b < n && buf[i].refcnt == 0 && (ROOTDEV, b) !in index
    requires x.dev == ROOTDEV && x.blockno == b && x.valid && x.locked && x.refcnt > 0
    ensures HeldOk(buf[i := x], Reindexed(index, buf[i], (ROOTDEV, b), i), n, held[b := i])
  {
    var index' := Reindexed(index, buf[i], (ROOTDEV, b), i);
    forall e | e in held && e != b ensures e < n && Holds(buf[i := x], index', held[e], e) {
      assert Holds(buf, index, held[e], e);
    }
    forall j | 0 <= j < |buf| && buf[j].locked ensures buf[j].blockno in held && held[buf[j].blockno] == j &&
      buf[j].blockno != b {
      assert Holds(buf, index, held[buf[j].blockno], buf[j].blockno);
    }
  }

  /** The caller's view after bread gave buffer i for block b. */
  ghost function AfterRead(c: Cache, b: nat, i: nat): Cache
    requires b < |c.refs| && (c.refs[b] == 0 ==> c.unused > 0)
  {
    Cache(c.view, c.refs[b := c.refs[b] + 1], c.held[b := i], if c.refs[b] == 0 then c.unused - 1 else c.unused)
  }

  /** Before bread: the buffer is not locked, and when no buffer can be had. */
  lemma BeforeBread(buf: seq<Buffer>, index: map<(nat, nat), nat>, disk: Disk, c: Cache, b: nat)
    requires CacheOk(buf, index, disk, c) && b < |disk| && b !in c.held
    ensures (ROOTDEV, b) in index ==> !buf[index[(ROOTDEV, b)]].locked
    ensures (ROOTDEV, b) !in index && Exhausted(buf) <==> c.refs[b] == 0 && c.unused == 0
  {
    assert c.refs[b] == Refs(buf, index, b);
    NoneUnused(buf);
  }

  /** A cached block: its buffer gets one more reference and the lock, and is read if need be. */
  lemma HitCache(buf: seq<Buffer>, index: map<(nat, nat), nat>, disk: Disk, c: Cache, i: nat, b: nat, x: Buffer)
    requires CacheOk(buf, index, disk, c) && b < |disk| && (ROOTDEV, b) in index && index[(ROOTDEV, b)] == i
    requires x == Taken(if buf[i].valid then buf[i] else buf[i].(valid := true, data := disk[b]))
    ensures c.view[b] == x.data && (c.refs[b] == 0 ==> c.unused > 0)
    ensures CacheOk(buf[i := x], index, disk, AfterRead(c, b, i))
  {
    assert c.view[b] == Seen(buf, index, disk, b) && c.refs[b] == Refs(buf, index, b);
    UpdateCache(buf, index, disk, c, i, x);
    assert c.view[b := x.data] == c.view;
  }

  /** Recycling an unreferenced buffer for block b and reading the block changes no contents. */
  lemma RecycleCache(buf: seq<Buffer>, index: map<(nat, nat), nat>, disk: Disk, c: Cache, i: nat, b: nat, x: Buffer)
    requires CacheOk(buf, index, disk, c)
    requires i < |buf| && b < |disk| && buf[i].refcnt == 0 && (ROOTDEV, b) !in index
    requires x == Buffer(ROOTDEV, b, 1, true, true, disk[b])
    ensures c.refs[b] == 0 && c.view[b] == disk[b] && c.unused > 0
    ensures CacheOk(buf[i := x], Reindexed(index, buf[i], (ROOTDEV, b), i), disk, AfterRead(c, b, i))
  {
    assert c.refs[b] == Refs(buf, index, b) && c.view[b] == Seen(buf, index, disk, b);
    UnusedPositive(buf, i);
    UnusedUpdate(buf, i, x);
    RecycleView(buf, index, disk, c, i, b, x);
    RecycleHeld(buf, index, |disk|, c.held, i, b, x);
    assert CleanOk(buf[i := x], disk);
  }

  lemma WriteCache(buf: seq<Buffer>, index: map<(nat, nat), nat>, disk: Disk, c: Cache, i: nat, b: nat)
    requires CacheOk(buf, index, disk, c) && Holds(buf, index, i, b) && b < |disk|
    ensures CacheOk(buf, index, disk[b := buf[i].data], c)
  {
    var disk' := disk[b := buf[i].data];
    forall e | 0 <= e < |disk| ensures c.view[e] == Seen(buf, index, disk', e) {
      assert c.view[e] == Seen(buf, index, disk, e);
    }
  }

  /** A held buffer keeping its lock. */
  lemma HeldCache(buf: seq<Buffer>, index: map<(nat, nat), nat>, disk: Disk, c: Cache, i: nat, b: nat, x: Buffer)
    requires CacheOk(buf, index, disk, c) && b in c.held && c.held[b] == i
    ensures Holds(buf, index, i, b) && b < |disk| && c.view[b] == buf[i].data && c.refs[b] == buf[i].refcnt
    ensures Key(x) == Key(buf[i]) && x.valid && x.locked && x.refcnt > 0 ==>
      CacheOk(buf[i := x], index, disk, c.(view := c.view[b := x.data], refs := c.refs[b := x.refcnt]))
  {
    assert Holds(buf, index, i, b);
    assert c.view[b] == Seen(buf, index, disk, b) && c.refs[b] == Refs(buf, index, b);
    if Key(x) == Key(buf[i]) && x.valid && x.locked && x.refcnt > 0 {
      UpdateCache(buf, index, disk, c, i, x);
      assert c.held[b := i] == c.held;
    }
  }

  lemma PinCache(buf: seq<Buffer>, index: map<(nat, nat), nat>, disk: Disk, c: Cache, i: nat, b: nat, n: nat)
    requires CacheOk(buf, index, disk, c) && b in c.held && c.held[b] == i && n > 0
    ensures i < |buf| && b < |c.refs| && c.refs[b] == buf[i].refcnt
    ensures CacheOk(buf[i := buf[i].(refcnt := n)], index, disk, c.(refs := c.refs[b := n]))
  {
    HeldCache(buf, index, disk, c, i, b, buf[i]);
    HeldCache(buf, index, disk, c, i, b, buf[i].(refcnt := n));
    assert c.view[b := buf[i].data] == c.view;
  }

  /** The same for a change of the count by d. */
  lemma RecountCache(buf: seq<Buffer>, index: map<(nat, nat), nat>, disk: Disk, c: Cache, i: nat, b: nat, d: int)
    requires Coherent(buf, index, disk, c) && b in c.held && c.held[b] == i && b < |c.refs| && c.refs[b] + d > 0
    ensures i < |buf| && buf[i].refcnt == c.refs[b]
    ensures Coherent(buf[i := buf[i].(refcnt := c.refs[b] + d)], index, disk, c.(refs := c.refs[b := c.refs[b] + d]))
  {
    assert Open(0) == 0;
    PinCache(buf, index, disk, c, i, b, c.refs[b] + d);
  }

  /** The caller's view after brelse. */
  ghost function AfterRelease(c: Cache, b: nat): Cache
    requires b < |c.refs| && c.refs[b] > 0
  {
    Cache(c.view, c.refs[b := c.refs[b] - 1], c.held - {b}, if c.refs[b] == 1 then c.unused + 1 else c.unused)
  }

  function Released(b: Buffer): Buffer
    requires b.refcnt > 0
  {
    b.(locked := false, refcnt := b.refcnt - 1)
  }

  lemma ReleaseCache(buf: seq<Buffer>, index: map<(nat, nat), nat>, disk: Disk, c: Cache, i: nat, b: nat)
    requires CacheOk(buf, index, disk, c) && b in c.held && c.held[b] == i && b < |disk|
    requires c.refs[b] == 1 ==> c.view[b] == disk[b]
    ensures Holds(buf, index, i, b) && c.refs[b] == buf[i].refcnt
    ensures CacheOk(buf[i := Released(buf[i])], index, disk, AfterRelease(c, b))
  {
    HeldCache(buf, index, disk, c, i, b, buf[i]);
    var x := Released(buf[i]);
    UpdateCache(buf, index, disk, c, i, x);
    assert c.view[b := x.data] == c.view;
  }

  class BCache {
    var disk: Disk
    ghost var trace: seq<Disk>  // the disk after every bwrite
    var buf: seq<Buffer>
    var next: seq<nat>
    var prev: seq<nat>
    ghost var ring: seq<nat>
    ghost var index: map<(nat, nat), nat>
    ghost var c: Cache

    ghost predicate RingOk()
      reads this
    {
      OnRing(|buf|, next, prev, ring)
    }

    ghost predicate ValidBody()
      reads this
    {
      RingOk() && CacheOk(buf, index, disk, c)
    }

    ghost predicate Valid()
      reads this
    {
      RingOk() && Coherent(buf, index, disk, c)
    }

    lemma Unreferenced(b: nat)
      requires Valid() && b < |disk| == |c.refs| == |c.view| && c.refs[b] == 0
      ensures c.view[b] == disk[b]
    {
      assert Open(0) == 0;
      assert c.view[b] == Seen(buf, index, disk, b) && c.refs[b] == Refs(buf, index, b);
    }

    /** binit: every buffer on the ring, none in use. */
    constructor (n: nat, d: Disk)
      ensures Valid() && |buf| == n && disk == d && trace == []
      ensures c == Cache(d, seq(|d|, _ => 0), map[], n)
    {
      var zero: Block := seq(WORDS, _ => 0);
      var buf0 := seq(n, _ => Buffer(0, 0, 0, false, false, zero));
      disk, trace, buf, index := d, [], buf0, map[];
      next, prev, ring := seq(n + 1, _ => n), seq(n + 1, _ => n), [n];
      c := Cache(d, seq(|d|, _ => 0), map[], n);
      AllUnused(buf0);
      new;
      var b := 0;
      while b < n
        invariant 0 <= b <= n && Linking(next, prev, ring, n, b)
        invariant buf == buf0 && index == map[] && disk == d && trace == [] && c == Cache(d, seq(|d|, _ => 0), map[], n)
      {
        LinkingStep(next, prev, ring, n, b);
        var l := LinkFront(next, prev, n, b);
        next, prev, ring := l.0, l.1, Fronted(ring, b);
        b := b + 1;
      }
      assert Threaded(|buf|, next, prev, ring);
      assert ValidBody();
    }

    /** The first loop of bget: the buffer that caches a block, or the list head. */
    method Find(dev: nat, blockno: nat) returns (b: nat)
      requires RingOk() && IndexOk(buf, index) && dev != 0
      ensures b == if (dev, blockno) in index then index[(dev, blockno)] else |buf|
    {
      assert Thread(0) == 0;
      b := next[|buf|];
      ghost var k := 1;
      while b != |buf|
        invariant 1 <= k <= |ring| && b == if k < |ring| then ring[k] else |buf|
        invariant forall j :: 1 <= j < k ==> Key(buf[ring[j]]) != (dev, blockno)
        decreases |ring| - k
      {
        if buf[b].dev == dev && buf[b].blockno == blockno {
          assert Key(buf[b]) in index;
          return;
        }
        b := next[b];
        k := k + 1;
      }
      if (dev, blockno) in index {
        assert index[(dev, blockno)] in ring;
      }
    }

    /** The second loop of bget: the least recently used unreferenced buffer, or the list head. */
    method FindUnused() returns (b: nat)
      requires RingOk()
      ensures b <= |buf| && (b == |buf| <==> Exhausted(buf))
      ensures b < |buf| ==> buf[b].refcnt == 0
      ensures forall p, q :: 0 <= p < q < |ring| && ring[p] == b ==> ring[q] < |buf| && buf[ring[q]].refcnt > 0
    {
      assert Thread(0) == 0;
      b := prev[|buf|];
      ghost var k := |ring| - 1;
      while b != |buf|
        invariant 0 <= k < |ring| && b == ring[k]
        invariant forall j :: k < j < |ring| ==> buf[ring[j]].refcnt > 0
        decreases k
      {
        if buf[b].refcnt == 0 { return; }
        b := prev[b];
        k := k - 1;
      }
      forall x | 0 <= x < |buf| ensures buf[x].refcnt > 0 {
        assert x in ring;
      }
    }

    /** The buffer of a block, now referenced and locked, or -1 where the source panics. */
    method Bget(dev: nat, blockno: nat) returns (i: int)
      requires RingOk() && IndexOk(buf, index) && dev != 0
      requires (dev, blockno) in index ==> !buf[index[(dev, blockno)]].locked
      modifies this`buf, this`index
      ensures RingOk() && IndexOk(buf, index) && |buf| == |old(buf)|
      ensures i == -1 <==> (dev, blockno) !in old(index) && Exhausted(old(buf))
      ensures i == -1 ==> buf == old(buf) && index == old(index)
      ensures i != -1 ==> 0 <= i < |buf| && (dev, blockno) in index && index[(dev, blockno)] == i
      ensures (dev, blockno) in old(index) ==>
        index == old(index) && i == index[(dev, blockno)] && buf == old(buf)[i := Taken(old(buf)[i])]
      ensures i != -1 && (dev, blockno) !in old(index) ==>
        && old(buf)[i].refcnt == 0
        && buf == old(buf)[i := Recycled(old(buf)[i], dev, blockno)]
        && index == Reindexed(old(index), old(buf)[i], (dev, blockno), i)
        && forall p, q :: 0 <= p < q < |ring| && ring[p] == i ==>
          ring[q] < |old(buf)| && old(buf)[ring[q]].refcnt > 0  // least recently used
    {
      var b := Find(dev, blockno);
      if b != |buf| {
        UpdateIndex(buf, index, b, Taken(buf[b]));
        buf := buf[b := Taken(buf[b])];
        return b;
      }
      b := FindUnused();
      if b == |buf| {
        return -1;
      }
      RecycleIndex(buf, index, b, Recycled(buf[b], dev, blockno));
      index := Reindexed(index, buf[b], (dev, blockno), b);
      buf := buf[b := Recycled(buf[b], dev, blockno)];
      return b;
    }

    /** bread: a locked buffer with the contents of the block. -1 is the panic, exactly when the
        block has no referenced buffer and no buffer is unreferenced. */
    method Bread(b: nat) returns (i: int)
      requires Valid() && b < |disk| == |c.refs| && b !in c.held
      modifies this`buf, this`index, this`c
      ensures Valid()
      ensures i == -1 <==> old(c).refs[b] == 0 && old(c).unused == 0
      ensures i == -1 ==> buf == old(buf) && c == old(c)
      ensures i != -1 ==> i >= 0 && c == AfterRead(old(c), b, i)
    {
      assert Open(0) == 0;
      BeforeBread(buf, index, disk, c, b);
      i := Bget(ROOTDEV, b);
      if i == -1 { return; }
      Fill(i, b, old(buf), old(index));
      assert ValidBody();
    }

    /** The end of bread: the buffer that bget returned is read from the disk unless it is valid. */
    method Fill(i: nat, b: nat, ghost was: seq<Buffer>, ghost wasIndex: map<(nat, nat), nat>)
      requires RingOk() && CacheOk(was, wasIndex, disk, c) && b < |disk| && i < |was| == |buf|
      requires (ROOTDEV, b) in wasIndex ==>
        wasIndex[(ROOTDEV, b)] == i && index == wasIndex && buf == was[i := Taken(was[i])]
      requires (ROOTDEV, b) !in wasIndex ==>
        && was[i].refcnt == 0 && buf == was[i := Recycled(was[i], ROOTDEV, b)]
        && index == Reindexed(wasIndex, was[i], (ROOTDEV, b), i)
      modifies this`buf, this`c
      ensures RingOk() && CacheOk(buf, index, disk, c)
      ensures b < |old(c).refs| && (old(c).refs[b] == 0 ==> old(c).unused > 0) && c == AfterRead(old(c), b, i)
    {
      if !buf[i].valid {
        buf := buf[i := buf[i].(valid := true, data := disk[b])];
      }
      assert buf == was[i := buf[i]];
      if (ROOTDEV, b) in wasIndex {
        HitCache(was, wasIndex, disk, c, i, b, buf[i]);
      } else {
        RecycleCache(was, wasIndex, disk, c, i, b, buf[i]);
      }
      c := AfterRead(c, b, i);
    }

    /** The holder of a buffer reads its data. */
    method Data(i: nat, b: nat) returns (x: Block)
      requires Valid() && b in c.held && c.held[b] == i && b < |c.view|
      ensures x == c.view[b]
    {
      assert Open(0) == 0;
      HeldCache(buf, index, disk, c, i, b, buf[i]);
      x := buf[i].data;
    }

    /** The holder of a buffer changes its data. */
    method SetData(i: nat, b: nat, x: Block)
      requires Valid() && b in c.held && c.held[b] == i
      modifies this`buf, this`c
      ensures Valid() && b < |old(c).view| && c == old(c).(view := old(c).view[b := x])
    {
      assert Open(0) == 0;
      HeldCache(buf, index, disk, c, i, b, buf[i].(data := x));
      buf := buf[i := buf[i].(data := x)];
      c := c.(view := c.view[b := x]);
      assert ValidBody();
    }

    /** bwrite: one block reaches the disk. */
    method Bwrite(i: nat, b: nat)
      requires Valid() && b in c.held && c.held[b] == i
      modifies this`disk, this`trace
      ensures Valid() && b < |old(disk)| == |c.view| && disk == old(disk)[b := c.view[b]] &&
        trace == old(trace) + [disk]
    {
      assert Open(0) == 0;
      HeldCache(buf, index, disk, c, i, b, buf[i]);
      WriteCache(buf, index, disk, c, i, b);
      disk := disk[b := buf[i].data];
      trace := trace + [disk];
      assert ValidBody();
    }

    method Bpin(i: nat, b: nat)
      requires Valid() && b in c.held && c.held[b] == i && b < |c.refs|
      modifies this`buf, this`c
      ensures Valid() && c == old(c).(refs := old(c).refs[b := old(c).refs[b] + 1])
    {
      Recount(i, b, 1);
    }

    method Bunpin(i: nat, b: nat)
      requires Valid() && b in c.held && c.held[b] == i && b < |c.refs| && c.refs[b] > 1
      modifies this`buf, this`c
      ensures Valid() && c == old(c).(refs := old(c).refs[b := old(c).refs[b] - 1])
    {
      Recount(i, b, -1);
    }

    /** b->refcnt += d for a held buffer. */
    method Recount(i: nat, b: nat, d: int)
      requires Valid() && b in c.held && c.held[b] == i && b < |c.refs| && c.refs[b] + d > 0
      modifies this`buf, this`c
      ensures Valid() && c == old(c).(refs := old(c).refs[b := old(c).refs[b] + d])
    {
      RecountCache(buf, index, disk, c, i, b, d);
      buf, c := buf[i := buf[i].(refcnt := buf[i].refcnt + d)], c.(refs := c.refs[b := c.refs[b] + d]);
    }

    /** The relinking in brelse: buffer i becomes the most recently used, the others keep their order. */
    method MoveToHead(i: nat)
      requires RingOk() && i < |buf|
      modifies this`next, this`prev, this`ring
      ensures RingOk()
      ensures forall k :: 1 <= k < |old(ring)| && old(ring)[k] == i ==> ring == Fronted(Without(old(ring), k), i)
    {
      assert Thread(0) == 0;
      assert i in ring;
      ghost var k :| 0 <= k < |ring| && ring[k] == i;
      MoveToFront(next, prev, ring, k);
      var u := Unlink(next, prev, i);
      var l := LinkFront(u.0, u.1, |buf|, i);
      next, prev, ring := l.0, l.1, Fronted(Without(ring, k), i);
      assert Threaded(|buf|, next, prev, ring);
    }

    /** brelse: unlock and drop a reference; the last one moves the buffer to the front of the ring.
        A caller gives up the last reference only of a buffer that agrees with the disk. */
    method Brelse(i: nat, b: nat)
      requires Valid() && b in c.held && c.held[b] == i
      requires b < |c.view| == |disk| == |c.refs| && (c.refs[b] == 1 ==> c.view[b] == disk[b])
      modifies this`buf, this`next, this`prev, this`ring, this`c
      ensures Valid() && old(c).refs[b] > 0 && c == AfterRelease(old(c), b)
      ensures c.refs[b] > 0 ==> ring == old(ring)
      ensures c.refs[b] == 0 ==>
        forall k :: 1 <= k < |old(ring)| && old(ring)[k] == i ==> ring == Fronted(Without(old(ring), k), i)
    {
      assert Open(0) == 0;
      Release(i, b);
      if buf[i].refcnt == 0 { MoveToHead(i); }
      assert ValidBody();
    }

    method Release(i: nat, b: nat)
      requires Valid() && b in c.held && c.held[b] == i
      requires b < |c.view| == |disk| == |c.refs| && (c.refs[b] == 1 ==> c.view[b] == disk[b])
      modifies this`buf, this`c
      ensures Valid() && i < |buf| && old(c).refs[b] > 0 && c == AfterRelease(old(c), b) && buf[i].refcnt == c.refs[b]
    {
      assert Open(0) == 0;
      ReleaseCache(buf, index, disk, c, i, b);
      var x := buf[i := Released(buf[i])];
      buf := x;
      c := AfterRelease(c, b);
      assert CacheOk(x, index, disk, c);
      assert ValidBody();
    }
  }
}
