/** The code of kernel/log.c that commits and recovers, running over the buffer cache. Each method is
    tied to the disks of module LogDisk, write by write: `bc.trace` grows by exactly the disks
    that a commit or a recovery goes through, also when the cache runs out of buffers and the
    source panics on the way. */
module Log {
  import opened LogDisk
  import opened BufferCache

  /** The disks that a commit goes through, from before its first write to after its last. */
  ghost function CommitScript(g: Geometry, d: Disk, bs: seq<nat>, vals: seq<Block>): (t: seq<Disk>)
    requires Loggable(g, |d|, bs) && |vals| == |bs|
    ensures |t| == 2 * |bs| + 3
  {
    seq(2 * |bs| + 3, k requires 0 <= k < 2 * |bs| + 3 => CommitDisk(g, d, bs, vals, k))
  }

  /** The disks that a recovery goes through. */
  ghost function RecoverScript(g: Geometry, d: Disk): (t: seq<Disk>)
    requires HeaderOk(g, d)
    ensures |t| == |Logged(g, d)| + 2
  {
    seq(|Logged(g, d)| + 2, k requires 0 <= k < |Logged(g, d)| + 2 => RecoverDisk(g, d, k))
  }

  /** From t[0] on, each disk has one more log block written. */
  ghost predicate Appends(g: Geometry, t: seq<Disk>, vals: seq<Block>) {
    |vals| < |t| && forall i {:trigger vals[i]} :: 0 <= i < |vals| ==>
      g.start + i + 1 < |t[i]| && t[i + 1] == t[i][g.start + i + 1 := vals[i]]
  }

  /** `e` is `d` with log block i copied home to b. */
  ghost predicate Copied(g: Geometry, d: Disk, e: Disk, b: nat, i: nat) {
    b < |d| && g.start + i + 1 < |d| && e == d[b := d[g.start + i + 1]]
  }

  /** From t[o] on, each disk has one more log block copied home. */
  ghost predicate Installs(g: Geometry, t: seq<Disk>, bs: seq<nat>, o: nat) {
    o + |bs| < |t| && forall i {:trigger bs[i]} :: 0 <= i < |bs| ==> Copied(g, t[o + i], t[o + i + 1], bs[i], i)
  }

  lemma CommitAppends(g: Geometry, d: Disk, bs: seq<nat>, vals: seq<Block>)
    requires Loggable(g, |d|, bs) && |vals| == |bs|
    ensures Appends(g, CommitScript(g, d, bs, vals), vals)
  {
    var t: seq<Disk> := CommitScript(g, d, bs, vals);
    forall i | 0 <= i < |vals| ensures g.start + i + 1 < |t[i]| && t[i + 1] == t[i][g.start + i + 1 := vals[i]] {
      assert t[i] == CommitDisk(g, d, bs, vals, i) && t[i + 1] == CommitDisk(g, d, bs, vals, i + 1);
    }
  }

  lemma CommitInstalls(g: Geometry, d: Disk, bs: seq<nat>, vals: seq<Block>)
    requires Loggable(g, |d|, bs) && |vals| == |bs|
    ensures Installs(g, CommitScript(g, d, bs, vals), bs, |bs| + 1)
  {
    var t: seq<Disk> := CommitScript(g, d, bs, vals);
    var o := |bs| + 1;
    forall i | 0 <= i < |bs| ensures Copied(g, t[o + i], t[o + i + 1], bs[i], i) {
      assert Copied(g, CommitDisk(g, d, bs, vals, o + i), CommitDisk(g, d, bs, vals, o + i + 1), bs[i], i) by {
        CommitInstallStep(g, d, bs, vals, o + i, i);
      }
    }
  }

  /** The header block is written with bs. */
  ghost predicate HeadWritten(g: Geometry, d: Disk, e: Disk, bs: seq<nat>) {
    g.start < |d| && |bs| <= LOGSIZE && e == Headed(g, d, bs)
  }

  ghost predicate BlockIs(d: Disk, b: nat, x: Block) {
    b < |d| && d[b] == x
  }

  ghost predicate HomesAre(d: Disk, bs: seq<nat>, vals: seq<Block>) {
    |bs| == |vals| && forall i :: 0 <= i < |bs| ==> BlockIs(d, bs[i], vals[i])
  }

  /** What commit needs of the disks it goes through: each is the one before with one block written. */
  ghost predicate IsCommit(g: Geometry, t: seq<Disk>, bs: seq<nat>, vals: seq<Block>) {
    var n := |bs|;
    && |t| == 2 * n + 3 && Appends(g, t, vals) && HeadWritten(g, t[n], t[n + 1], bs)
    && Installs(g, t, bs, n + 1) && HeadWritten(g, t[2 * n + 1], t[2 * n + 2], []) && HomesAre(t[2 * n + 1], bs, vals)
  }

  lemma ScriptAt(g: Geometry, d: Disk, bs: seq<nat>, vals: seq<Block>, k: nat)
    requires Loggable(g, |d|, bs) && |vals| == |bs| && k <= 2 * |bs| + 2
    ensures CommitScript(g, d, bs, vals)[k] == CommitDisk(g, d, bs, vals, k)
  {
  }

  lemma CommitHead(g: Geometry, d: Disk, bs: seq<nat>, vals: seq<Block>)
    requires Loggable(g, |d|, bs) && |vals| == |bs|
    ensures var t := CommitScript(g, d, bs, vals); HeadWritten(g, t[|bs|], t[|bs| + 1], bs)
  {
    ScriptAt(g, d, bs, vals, |bs|);
    ScriptAt(g, d, bs, vals, |bs| + 1);
  }

  lemma CommitCleared(g: Geometry, d: Disk, bs: seq<nat>, vals: seq<Block>)
    requires Loggable(g, |d|, bs) && |vals| == |bs|
    ensures var t := CommitScript(g, d, bs, vals); HeadWritten(g, t[2 * |bs| + 1], t[2 * |bs| + 2], [])
  {
    ScriptAt(g, d, bs, vals, 2 * |bs| + 1);
    ScriptAt(g, d, bs, vals, 2 * |bs| + 2);
  }

  lemma CommitHomes(g: Geometry, d: Disk, bs: seq<nat>, vals: seq<Block>)
    requires Loggable(g, |d|, bs) && |vals| == |bs|
    ensures HomesAre(CommitScript(g, d, bs, vals)[2 * |bs| + 1], bs, vals)
  {
    var k := 2 * |bs| + 1;
    ScriptAt(g, d, bs, vals, k);
    forall i | 0 <= i < |bs| ensures BlockIs(CommitDisk(g, d, bs, vals, k), bs[i], vals[i]) {
      assert BlockIs(CommitDisk(g, d, bs, vals, k), bs[i], vals[i]) by { CommitHome(g, d, bs, vals, k, i); }
    }
  }

  /** The disks of LogDisk.CommitDisk are such a commit. */
  lemma CommitIsScript(g: Geometry, d: Disk, bs: seq<nat>, vals: seq<Block>)
    requires Loggable(g, |d|, bs) && |vals| == |bs|
    ensures CommitScript(g, d, bs, vals)[0] == d && IsCommit(g, CommitScript(g, d, bs, vals), bs, vals)
  {
    CommitAppends(g, d, bs, vals);
    CommitHead(g, d, bs, vals);
    CommitInstalls(g, d, bs, vals);
    CommitCleared(g, d, bs, vals);
    CommitHomes(g, d, bs, vals);
  }

  /** What recovery needs of the disks it goes through. */
  ghost predicate IsRecovery(g: Geometry, t: seq<Disk>, bs: seq<nat>) {
    |t| == |bs| + 2 && Installs(g, t, bs, 0) && HeadWritten(g, t[|bs|], t[|bs| + 1], [])
  }

  /** The disks of LogDisk.RecoverDisk are such a recovery. */
  lemma RecoveryIsScript(g: Geometry, d: Disk)
    requires HeaderOk(g, d)
    ensures RecoverScript(g, d)[0] == d && IsRecovery(g, RecoverScript(g, d), Logged(g, d))
  {
    var t: seq<Disk> := RecoverScript(g, d);
    var bs := Logged(g, d);
    forall i | 0 <= i < |bs| ensures Copied(g, t[i], t[i + 1], bs[i], i) {
      assert t[i] == Installed(g, d, bs, i) && t[i + 1] == Installed(g, d, bs, i + 1);
    }
  }

  /** What bread returns: `home` for home blocks, the disk itself for the log area. Only logged
      blocks have changes that are not on disk. */
  ghost predicate Shows(g: Geometry, bs: seq<nat>, view: Disk, disk: Disk, home: Disk) {
    && |view| == |disk| == |home|
    && (forall c :: 0 <= c < |disk| ==> view[c] == if InLog(g, c) then disk[c] else home[c])
    && (forall c :: 0 <= c < |disk| && c !in bs ==> view[c] == disk[c])
  }

  /** Inside install_trans: the first `tail` blocks of bs look as they are on disk, the other home
      blocks as in `home`. */
  ghost predicate PartlyShows(g: Geometry, bs: seq<nat>, tail: nat, view: Disk, disk: Disk, home: Disk) {
    && |view| == |disk| == |home| && tail <= |bs|
    && (forall c :: 0 <= c < |disk| && c !in bs ==> view[c] == disk[c] && (!InLog(g, c) ==> disk[c] == home[c]))
    && (forall i :: 0 <= i < |bs| ==> bs[i] < |disk| && view[bs[i]] == if i < tail then disk[bs[i]] else home[bs[i]])
  }

  lemma PartlyShowsNext(g: Geometry, bs: seq<nat>, tail: nat, view: Disk, disk: Disk, home: Disk)
    requires Loggable(g, |disk|, bs) && tail < |bs| && PartlyShows(g, bs, tail, view, disk, home)
    ensures var x := view[g.start + tail + 1];
      x == disk[g.start + tail + 1] && PartlyShows(g, bs, tail + 1, view[bs[tail] := x], disk[bs[tail] := x], home)
  {
    assert InLog(g, g.start + tail + 1);
  }

  lemma PartlyShowsEnds(g: Geometry, bs: seq<nat>, vals: seq<Block>, view: Disk, disk: Disk, home: Disk)
    requires PartlyShows(g, bs, |bs|, view, disk, home) && Loggable(g, |disk|, bs)
    requires HomesAre(disk, bs, vals) && HomesAre(home, bs, vals)
    ensures Shows(g, [], view, disk, home)
  {
    forall c | 0 <= c < |disk| ensures view[c] == disk[c] && (!InLog(g, c) ==> disk[c] == home[c]) {
      if i :| 0 <= i < |bs| && bs[i] == c {
        assert BlockIs(disk, bs[i], vals[i]) && BlockIs(home, bs[i], vals[i]);
      }
    }
  }

  lemma RecoveredShows(g: Geometry, bs: seq<nat>, view: Disk, disk: Disk, home: Disk)
    requires Loggable(g, |disk|, bs) && PartlyShows(g, bs, |bs|, view, disk, home)
    ensures view == disk
  {
  }

  lemma PartlyShowsStarts(g: Geometry, bs: seq<nat>, view: Disk, disk: Disk, home: Disk)
    requires Loggable(g, |disk|, bs) && Shows(g, bs, view, disk, home)
    ensures PartlyShows(g, bs, 0, view, disk, home)
  {
  }

  /** Enough unreferenced buffers to read block l and then block h. */
  predicate Enough(c: Cache, l: nat, h: nat)
    requires l < |c.refs| && h < |c.refs|
  {
    && (c.refs[l] > 0 || c.unused > 0)
    && (c.refs[h] > 0 || c.unused > if c.refs[l] == 0 then 1 else 0)
  }

  /** The cache after the second half of an iteration. */
  ghost function Finished(c: Cache, b: nat, e: nat, x: Block, unpin: bool): Cache
    requires b < |c.view| == |c.refs| && e < |c.refs| && b != e
    requires c.refs[b] > (if unpin then 1 else 0) && c.refs[e] > 0
  {
    var d := c.(view := c.view[b := x], refs := c.refs[b := c.refs[b] - if unpin then 1 else 0]);
    AfterRelease(AfterRelease(d, e), b)
  }

  /** The cache after an iteration that copied block e to block b: no reference and no lock is left
      behind, and one pin is given up if asked. */
  ghost function Iterated(c: Cache, b: nat, e: nat, unpin: bool): Cache
    requires b < |c.view| == |c.refs| && e < |c.view| && (unpin ==> c.refs[b] > 0)
  {
    Cache(c.view[b := c.view[e]], if unpin then c.refs[b := c.refs[b] - 1] else c.refs, map[],
          if unpin && c.refs[b] == 1 then c.unused + 1 else c.unused)
  }

  lemma IterationBalance(c: Cache, l: nat, i: nat, h: nat, j: nat, b: nat, e: nat, unpin: bool)
    requires |c.view| == |c.refs| && l < |c.refs| && h < |c.refs| && l != h && c.held == map[] && Enough(c, l, h)
    requires (b, e) == (l, h) || (b, e) == (h, l)
    requires unpin ==> c.refs[b] > 0
    ensures var d := AfterRead(AfterRead(c, l, i), h, j);
      && d.refs[b] > (if unpin then 1 else 0) && d.refs[e] > 0
      && Finished(d, b, e, c.view[e], unpin) == Iterated(c, b, e, unpin)
  {
    if b == l { BalanceFirst(c, l, i, h, j, unpin); } else { BalanceSecond(c, l, i, h, j, unpin); }
  }

  lemma BalanceFirst(c: Cache, l: nat, i: nat, h: nat, j: nat, unpin: bool)
    requires |c.view| == |c.refs| && l < |c.refs| && h < |c.refs| && l != h && c.held == map[] && Enough(c, l, h)
    requires unpin ==> c.refs[l] > 0
    ensures var d := AfterRead(AfterRead(c, l, i), h, j);
      && d.refs[l] > (if unpin then 1 else 0) && d.refs[h] > 0
      && Finished(d, l, h, c.view[h], unpin) == Iterated(c, l, h, unpin)
  {
    var f := Finished(AfterRead(AfterRead(c, l, i), h, j), l, h, c.view[h], unpin);
    assert f.refs == Iterated(c, l, h, unpin).refs;
    assert f.held == map[];
  }

  lemma BalanceSecond(c: Cache, l: nat, i: nat, h: nat, j: nat, unpin: bool)
    requires |c.view| == |c.refs| && l < |c.refs| && h < |c.refs| && l != h && c.held == map[] && Enough(c, l, h)
    requires unpin ==> c.refs[h] > 0
    ensures var d := AfterRead(AfterRead(c, l, i), h, j);
      && d.refs[h] > (if unpin then 1 else 0) && d.refs[l] > 0
      && Finished(d, h, l, c.view[l], unpin) == Iterated(c, h, l, unpin)
  {
    var f := Finished(AfterRead(AfterRead(c, l, i), h, j), h, l, c.view[l], unpin);
    assert f.refs == Iterated(c, h, l, unpin).refs;
    assert f.held == map[];
  }

  /** `was` followed by the disks t[1], ..., t[k]. */
  ghost function Traced(was: seq<Disk>, t: seq<Disk>, k: nat): seq<Disk>
    requires k < |t|
  {
    if k == 0 then was else Traced(was, t, k - 1) + [t[k]]
  }

  lemma ReadBalance(c: Cache, b: nat, i: nat)
    requires b < |c.view| == |c.refs| && c.held == map[] && (c.refs[b] > 0 || c.unused > 0)
    ensures AfterRelease(AfterRead(c, b, i), b) == c
  {
    assert AfterRelease(AfterRead(c, b, i), b).refs == c.refs;
  }

  lemma OneBlockBalance(c: Cache, b: nat, i: nat, x: Block)
    requires b < |c.view| == |c.refs| && c.held == map[] && (c.refs[b] > 0 || c.unused > 0)
    ensures var d := AfterRead(c, b, i);
      AfterRelease(d.(view := d.view[b := x], refs := d.refs[b := d.refs[b]]), b) == c.(view := c.view[b := x])
  {
    var d := AfterRead(c, b, i);
    var f := AfterRelease(d.(view := d.view[b := x], refs := d.refs[b := d.refs[b]]), b);
    assert f.refs == c.refs;
    assert f.held == map[];
  }

  class Log {
    const bc: BCache
    const g: Geometry
    var lh: seq<nat>  // log.lh.block[0..log.lh.n)

    constructor (bc: BCache, g: Geometry)
      ensures this.bc == bc && this.g == g && lh == []
    {
      this.bc := bc;
      this.g := g;
      lh := [];
    }

    /** The two bread calls of an iteration, the log block first. */
    method ReadPair(l: nat, h: nat) returns (i: int, j: int)
      requires bc.Valid() && l < |bc.c.refs| == |bc.disk| && h < |bc.disk| && l != h && bc.c.held == map[]
      modifies bc`buf, bc`index, bc`c
      ensures i != -1 && j != -1 <==> Enough(old(bc.c), l, h)
      ensures i != -1 && j != -1 ==>
        bc.Valid() && i >= 0 && j >= 0 && bc.c == AfterRead(AfterRead(old(bc.c), l, i), h, j)
    {
      j := -1;
      i := bc.Bread(l);
      if i != -1 {
        j := bc.Bread(h);
      }
    }

    /** Buffer i of block b gets x and is written, and loses its pin if asked. */
    method Store(i: nat, b: nat, x: Block, unpin: bool)
      requires bc.Valid() && b in bc.c.held && bc.c.held[b] == i && b < |bc.disk| == |bc.c.view| == |bc.c.refs|
      requires bc.c.refs[b] > if unpin then 1 else 0
      modifies bc`buf, bc`c, bc`disk, bc`trace
      ensures bc.Valid() && bc.disk == old(bc.disk)[b := x] && bc.trace == old(bc.trace) + [bc.disk]
      ensures bc.c == old(bc.c).(view := old(bc.c).view[b := x],
        refs := old(bc.c).refs[b := old(bc.c).refs[b] - if unpin then 1 else 0])
    {
      bc.SetData(i, b, x);
      bc.Bwrite(i, b);
      if unpin { bc.Bunpin(i, b); }
    }

    method ReleasePair(j: nat, e: nat, i: nat, b: nat)
      requires bc.Valid() && b != e && e in bc.c.held && b in bc.c.held && bc.c.held[e] == j && bc.c.held[b] == i
      requires b < |bc.disk| && e < |bc.disk| && |bc.c.view| == |bc.c.refs| == |bc.disk|
      requires bc.c.refs[e] > 0 && (bc.c.refs[e] == 1 ==> bc.c.view[e] == bc.disk[e])
      requires bc.c.refs[b] > 0 && (bc.c.refs[b] == 1 ==> bc.c.view[b] == bc.disk[b])
      modifies bc`buf, bc`c, bc`next, bc`prev, bc`ring
      ensures bc.Valid() && bc.c == AfterRelease(AfterRelease(old(bc.c), e), b)
    {
      bc.Brelse(j, e);
      bc.Brelse(i, b);
    }

    /** The rest of an iteration: block b is written with x, then both buffers are released. */
    method Finish(i: nat, b: nat, j: nat, e: nat, x: Block, unpin: bool)
      requires bc.Valid() && b != e && e in bc.c.held && b in bc.c.held && bc.c.held[e] == j && bc.c.held[b] == i
      requires b < |bc.disk| && e < |bc.disk| && |bc.c.view| == |bc.c.refs| == |bc.disk|
      requires bc.c.refs[b] > (if unpin then 1 else 0) && bc.c.refs[e] > 0 &&
        (bc.c.refs[e] == 1 ==> bc.c.view[e] == bc.disk[e])
      modifies bc
      ensures bc.Valid() && bc.disk == old(bc.disk)[b := x] && bc.trace == old(bc.trace) + [bc.disk]
      ensures bc.c == Finished(old(bc.c), b, e, x, unpin)
    {
      ghost var d := bc.c.(view := bc.c.view[b := x], refs := bc.c.refs[b := bc.c.refs[b] - if unpin then 1 else 0]);
      Store(i, b, x, unpin);
      assert bc.c == d;
      ReleasePair(j, e, i, b);
    }

    /** One iteration of write_log: the log block is read first, then written with the home block. */
    method CopyToLog(l: nat, h: nat) returns (ok: bool)
      requires bc.Valid() && l < |bc.disk| && h < |bc.disk| && l != h && bc.c.held == map[]
      requires |bc.c.view| == |bc.c.refs| == |bc.disk|
      modifies bc
      ensures ok <==> Enough(old(bc.c), l, h)
      ensures !ok ==> bc.disk == old(bc.disk) && bc.trace == old(bc.trace)
      ensures ok ==>
        && bc.Valid() && bc.c == Iterated(old(bc.c), l, h, false)
        && bc.disk == old(bc.disk)[l := old(bc.c).view[h]] && bc.trace == old(bc.trace) + [bc.disk]
    {
      if bc.c.refs[h] == 0 { bc.Unreferenced(h); }
      var i, j := ReadPair(l, h);
      if i == -1 || j == -1 { return false; }
      IterationBalance(old(bc.c), l, i, h, j, l, h, false);
      var x := bc.Data(j, h);
      Finish(i, l, j, h, x, false);
      ok := true;
    }

    /** One iteration of install_trans: the log block is copied to the home block, which is written
        and, in a commit, unpinned. */
    method CopyHome(l: nat, h: nat, recovering: bool) returns (ok: bool)
      requires bc.Valid() && l < |bc.disk| && h < |bc.disk| && l != h && bc.c.held == map[]
      requires |bc.c.view| == |bc.c.refs| == |bc.disk| && (!recovering ==> bc.c.refs[h] > 0)
      modifies bc
      ensures ok <==> Enough(old(bc.c), l, h)
      ensures !ok ==> bc.disk == old(bc.disk) && bc.trace == old(bc.trace)
      ensures ok ==>
        && bc.Valid() && bc.c == Iterated(old(bc.c), h, l, !recovering)
        && bc.disk == old(bc.disk)[h := old(bc.c).view[l]] && bc.trace == old(bc.trace) + [bc.disk]
    {
      if bc.c.refs[l] == 0 { bc.Unreferenced(l); }
      var i, j := ReadPair(l, h);
      if i == -1 || j == -1 { return false; }
      IterationBalance(old(bc.c), l, i, h, j, h, l, !recovering);
      var x := bc.Data(i, l);
      Finish(j, h, i, l, x, !recovering);
      ok := true;
    }

    /** No buffer is locked, lh is loggable, and home blocks look like `home`. */
    ghost predicate Ready(home: Disk)
      reads this, bc
    {
      && bc.Valid() && bc.c.held == map[] && |bc.c.refs| == |bc.disk|
      && Loggable(g, |bc.disk|, lh) && Shows(g, lh, bc.c.view, bc.disk, home)
    }

    /** The blocks of lh from position `from` on have a reference. */
    ghost predicate AllPinned(from: nat)
      reads this, bc
    {
      forall i :: from <= i < |lh| ==> lh[i] < |bc.c.refs| && bc.c.refs[lh[i]] > 0
    }

    /** The disk is t[k], and every disk of t after t[0] up to it is in the trace. */
    ghost predicate Played(t: seq<Disk>, was: seq<Disk>, k: nat)
      reads bc
    {
      k < |t| && bc.disk == t[k] && bc.trace == Traced(was, t, k)
    }

    /** An iteration of write_log. */
    method WriteLogBlock(tail: nat, ghost home: Disk, ghost vals: seq<Block>, ghost t: seq<Disk>,
      ghost was: seq<Disk>) returns (ok: bool)
      requires tail < |lh| && Ready(home) && AllPinned(0) && HomesAre(home, lh, vals)
      requires Appends(g, t, vals) && Played(t, was, tail)
      modifies bc
      ensures ok ==>
        Ready(home) && bc.c.refs == old(bc.c).refs && bc.c.unused == old(bc.c).unused && Played(t, was, tail + 1)
      ensures !ok ==> old(bc.c).unused == 0 && Played(t, was, tail)
    {
      assert InLog(g, g.start + tail + 1);
      assert BlockIs(home, lh[tail], vals[tail]);
      ok := CopyToLog(g.start + tail + 1, lh[tail]);
    }

    /** write_log, up to the write where the cache runs out of buffers if it does. */
    method WriteLog(ghost home: Disk, ghost vals: seq<Block>, ghost t: seq<Disk>, ghost was: seq<Disk>)
      returns (ok: bool, ghost k: nat)
      requires Ready(home) && AllPinned(0) && Appends(g, t, vals) && Played(t, was, 0)
      requires HomesAre(home, lh, vals)
      modifies bc
      ensures k <= |lh| && Played(t, was, k)
      ensures ok ==> k == |lh| && Ready(home) && AllPinned(0) && bc.c.unused == old(bc.c).unused
      ensures !ok ==> old(bc.c).unused == 0
    {
      k := 0;
      var tail := 0;
      while tail < |lh|
        invariant 0 <= tail <= |lh| && k == tail && Played(t, was, k)
        invariant Ready(home) && AllPinned(0) && bc.c.unused == old(bc.c).unused
      {
        ok := WriteLogBlock(tail, home, vals, t, was);
        if !ok { return; }
        tail := tail + 1;
        k := tail;
      }
      ok := true;
    }

    method WriteBlock(i: nat, b: nat, x: Block)
      requires bc.Valid() && b in bc.c.held && bc.c.held[b] == i && b < |bc.disk| == |bc.c.view| == |bc.c.refs| &&
        bc.c.refs[b] > 0
      modifies bc
      ensures bc.Valid() && bc.disk == old(bc.disk)[b := x] && bc.trace == old(bc.trace) + [bc.disk]
      ensures bc.c == AfterRelease(old(bc.c).(view := old(bc.c).view[b := x],
        refs := old(bc.c).refs[b := old(bc.c).refs[b]]), b)
    {
      Store(i, b, x, false);
      bc.Brelse(i, b);
    }

    /** write_head: store lh in the header block, which is one block write. */
    method WriteHead() returns (ok: bool)
      requires bc.Valid() && bc.c.held == map[] && |lh| <= LOGSIZE && g.start < |bc.disk| == |bc.c.view| == |bc.c.refs|
      requires bc.c.view[g.start] == bc.disk[g.start]
      modifies bc
      ensures ok <==> old(bc.c).refs[g.start] > 0 || old(bc.c).unused > 0
      ensures !ok ==> bc.disk == old(bc.disk) && bc.trace == old(bc.trace)
      ensures ok ==>
        && bc.Valid() && bc.disk == Headed(g, old(bc.disk), lh) && bc.trace == old(bc.trace) + [bc.disk]
        && bc.c == old(bc.c).(view := old(bc.c).view[g.start := bc.disk[g.start]])
    {
      var i := bc.Bread(g.start);
      if i == -1 { return false; }
      var x := bc.Data(i, g.start);
      OneBlockBalance(old(bc.c), g.start, i, WithHeader(x, lh));
      WriteBlock(i, g.start, WithHeader(x, lh));
      ok := true;
    }

    /** Inside install_trans with `tail` blocks done. */
    ghost predicate Installing(home: Disk, tail: nat)
      reads this, bc
    {
      && bc.Valid() && bc.c.held == map[] && |bc.c.refs| == |bc.disk|
      && Loggable(g, |bc.disk|, lh) && PartlyShows(g, lh, tail, bc.c.view, bc.disk, home)
    }

    /** An iteration of install_trans. */
    method InstallBlock(tail: nat, recovering: bool, ghost home: Disk, ghost t: seq<Disk>, ghost o: nat,
      ghost was: seq<Disk>) returns (ok: bool)
      requires tail < |lh| && Installing(home, tail) && Installs(g, t, lh, o) && Played(t, was, o + tail)
      requires !recovering ==> AllPinned(tail)
      modifies bc
      ensures ok ==> Installing(home, tail + 1) && Played(t, was, o + tail + 1) && bc.c.unused >= old(bc.c).unused
      ensures ok && !recovering ==> AllPinned(tail + 1)
      ensures !ok ==> Played(t, was, o + tail) && old(bc.c).unused <= if recovering then 1 else 0
    {
      assert InLog(g, g.start + tail + 1);
      PartlyShowsNext(g, lh, tail, bc.c.view, bc.disk, home);
      assert Copied(g, t[o + tail], t[o + tail + 1], lh[tail], tail);
      ok := CopyHome(g.start + tail + 1, lh[tail], recovering);
      if ok {
        assert Played(t, was, o + tail + 1);
        assert Installing(home, tail + 1);
      }
    }

    /** install_trans: the log blocks reach their home blocks, and a commit drops the pins. */
    method InstallTrans(recovering: bool, ghost home: Disk, ghost t: seq<Disk>, ghost o: nat, ghost was: seq<Disk>)
      returns (ok: bool, ghost k: nat)
      requires Installing(home, 0) && Installs(g, t, lh, o) && Played(t, was, o)
      requires !recovering ==> AllPinned(0)
      modifies bc
      ensures o <= k <= o + |lh| && Played(t, was, k)
      ensures ok ==> k == o + |lh| && Installing(home, |lh|) && bc.c.unused >= old(bc.c).unused
      ensures !ok ==> old(bc.c).unused <= if recovering then 1 else 0
    {
      k := o;
      var tail := 0;
      while tail < |lh|
        invariant 0 <= tail <= |lh| && k == o + tail && Installing(home, tail) && Played(t, was, k)
        invariant bc.c.unused >= old(bc.c).unused && (!recovering ==> AllPinned(tail))
      {
        ok := InstallBlock(tail, recovering, home, t, o, was);
        if !ok { return; }
        tail := tail + 1;
        k := k + 1;
      }
      ok := true;
    }

    /** write_head as the next write of a script. */
    method PlayHead(ghost home: Disk, ghost t: seq<Disk>, ghost was: seq<Disk>, ghost k: nat) returns (ok: bool)
      requires Ready(home) && Played(t, was, k) && k + 1 < |t| && t[k + 1] == Headed(g, t[k], lh)
      modifies bc
      ensures ok ==>
        Ready(home) && Played(t, was, k + 1) && bc.c.refs == old(bc.c).refs && bc.c.unused == old(bc.c).unused
      ensures !ok ==> old(bc.c).unused == 0 && Played(t, was, k)
    {
      assert InLog(g, g.start);
      ok := WriteHead();
    }

    /** The first half of commit: the log blocks and then the header, the commit point. */
    method CommitWrite(ghost home: Disk, ghost vals: seq<Block>, ghost t: seq<Disk>, ghost was: seq<Disk>)
      returns (ok: bool, ghost k: nat)
      requires Ready(home) && AllPinned(0) && IsCommit(g, t, lh, vals) && Played(t, was, 0)
      requires HomesAre(home, lh, vals)
      modifies bc
      ensures k <= |lh| + 1 && Played(t, was, k)
      ensures ok ==> k == |lh| + 1 && Ready(home) && AllPinned(0) && bc.c.unused == old(bc.c).unused
      ensures !ok ==> old(bc.c).unused == 0
    {
      ok, k := WriteLog(home, vals, t, was);
      if ok {
        ok := PlayHead(home, t, was, k);
        if ok { k := k + 1; }
      }
    }

    /** The end of commit: forget the transaction and clear the header. */
    method CommitClear(ghost home: Disk, ghost vals: seq<Block>, ghost t: seq<Disk>, ghost was: seq<Disk>,
      ghost k: nat) returns (ok: bool)
      requires Installing(home, |lh|) && HomesAre(home, lh, vals) && Played(t, was, k)
      requires HomesAre(t[k], lh, vals) && k + 1 < |t| && HeadWritten(g, t[k], t[k + 1], [])
      modifies bc, this`lh
      ensures ok ==> lh == [] && Ready(home) && Played(t, was, k + 1)
      ensures !ok ==> Played(t, was, k) && old(bc.c).unused == 0
    {
      PartlyShowsEnds(g, lh, vals, bc.c.view, bc.disk, home);
      lh := [];
      ok := PlayHead(home, t, was, k);
    }

    /** The second half of commit: install and clear. The header is written in t[o] and the installs
        end in t[e]. */
    method CommitInstall(ghost home: Disk, ghost vals: seq<Block>, ghost t: seq<Disk>, ghost was: seq<Disk>,
      ghost o: nat, ghost e: nat) returns (ok: bool, ghost k: nat)
      requires Ready(home) && AllPinned(0) && HomesAre(home, lh, vals) && Played(t, was, o) && e == o + |lh|
      requires Installs(g, t, lh, o) && e + 1 < |t| && HeadWritten(g, t[e], t[e + 1], []) && HomesAre(t[e], lh, vals)
      modifies bc, this`lh
      ensures o <= k <= e + 1 && Played(t, was, k)
      ensures ok ==> k == e + 1 && lh == [] && Ready(home)
      ensures !ok ==> old(bc.c).unused == 0
    {
      PartlyShowsStarts(g, lh, bc.c.view, bc.disk, home);
      ok, k := InstallTrans(false, home, t, o, was);
      if ok {
        ok := CommitClear(home, vals, t, was, e);
        k := if ok then e + 1 else e;
      }
    }

    /** commit: every disk it goes through is the next one of the commit script t, whether it ends or
        the cache runs out of buffers on the way; one unreferenced buffer is enough for it to end,
        and then readers see what they saw. */
    method Commit(ghost home: Disk, ghost vals: seq<Block>, ghost t: seq<Disk>) returns (ok: bool, ghost k: nat)
      requires Ready(home) && AllPinned(0) && HomesAre(home, lh, vals)
      requires IsCommit(g, t, lh, vals) && t[0] == bc.disk
      modifies bc, this`lh
      ensures k <= 2 * |old(lh)| + 2 && Played(t, old(bc.trace), k)
      ensures ok ==> lh == [] && Ready(home) && k == if old(lh) == [] then 0 else 2 * |old(lh)| + 2
      ensures old(bc.c).unused > 0 ==> ok
    {
      ok, k := true, 0;
      if |lh| > 0 {
        ghost var was := bc.trace;
        ok, k := CommitWrite(home, vals, t, was);
        if ok { ok, k := CommitInstall(home, vals, t, was, |lh| + 1, 2 * |lh| + 1); }
      }
    }

    /** The loop of read_head. */
    static method ParseHead(x: Block) returns (bs: seq<nat>)
      requires x[0] <= LOGSIZE
      ensures bs == x[1..1 + x[0]]
    {
      bs := [];
      while |bs| < x[0]
        invariant |bs| <= x[0] && bs == x[1..1 + |bs|]
      {
        bs := bs + [x[1 + |bs|]];
      }
    }

    /** read_head: lh becomes the block list in the header block. */
    method ReadHead() returns (ok: bool)
      requires bc.Valid() && bc.c.held == map[] && |bc.c.refs| == |bc.c.view| == |bc.disk| && HeaderOk(g, bc.disk)
      requires bc.c.view[g.start] == bc.disk[g.start]
      modifies bc`buf, bc`index, bc`c, bc`next, bc`prev, bc`ring, this`lh
      ensures ok <==> old(bc.c).refs[g.start] > 0 || old(bc.c).unused > 0
      ensures ok ==> bc.Valid() && bc.c == old(bc.c) && lh == Logged(g, bc.disk)
    {
      var i := bc.Bread(g.start);
      if i == -1 { return false; }
      var x := bc.Data(i, g.start);
      lh := ParseHead(x);
      ReadBalance(old(bc.c), g.start, i);
      bc.Brelse(i, g.start);
      ok := true;
    }

    /** recover_from_log on a cache without unwritten changes: every disk it goes through is the next
        one of the recovery script; two unreferenced buffers are enough for it to end. */
    method RecoverFromLog(ghost t: seq<Disk>) returns (ok: bool, ghost k: nat)
      requires bc.Valid() && bc.c.held == map[] && |bc.c.refs| == |bc.disk| && bc.c.view == bc.disk
      requires HeaderOk(g, bc.disk) && IsRecovery(g, t, Logged(g, bc.disk)) && t[0] == bc.disk
      modifies bc, this`lh
      ensures k < |t| && Played(t, old(bc.trace), k)
      ensures ok ==> k == |t| - 1 && lh == [] && bc.Valid() && bc.c.view == bc.disk
      ensures old(bc.c).unused > 1 ==> ok
    {
      ghost var was := bc.trace;
      k := 0;
      ok := ReadHead();
      if !ok { return; }
      ok, k := Recover(t, was);
    }

    /** The part of recover_from_log after read_head. */
    method Recover(ghost t: seq<Disk>, ghost was: seq<Disk>) returns (ok: bool, ghost k: nat)
      requires bc.Valid() && bc.c.held == map[] && |bc.c.refs| == |bc.disk| && bc.c.view == bc.disk
      requires Loggable(g, |bc.disk|, lh) && IsRecovery(g, t, lh) && Played(t, was, 0)
      modifies bc, this`lh
      ensures k < |t| && Played(t, was, k)
      ensures ok ==> k == |t| - 1 && lh == [] && bc.Valid() && bc.c.view == bc.disk
      ensures old(bc.c).unused > 1 ==> ok
    {
      ok, k := InstallTrans(true, bc.disk, t, 0, was);
      if !ok { return; }
      ghost var e := |lh|;
      ghost var d := bc.disk;
      RecoveredShows(g, lh, bc.c.view, bc.disk, old(bc.disk));
      lh := [];
      ok := PlayHead(d, t, was, e);
      if ok { k := e + 1; }
    }

    /** log_write: record the block and pin its buffer, unless it is recorded already. `outstanding` is
        log.outstanding as begin_op and end_op left it. */
    method LogWrite(i: nat, b: nat, outstanding: int) returns (panic: bool)
      requires bc.Valid() && b in bc.c.held && bc.c.held[b] == i && b < |bc.disk| == |bc.c.refs|
      requires Loggable(g, |bc.disk|, lh) && !InLog(g, b)
      modifies bc`buf, bc`c, this`lh
      ensures panic <==> |old(lh)| >= LOGSIZE || |old(lh)| >= g.size - 1 || outstanding < 1
      ensures bc.Valid() && Loggable(g, |bc.disk|, lh)
      ensures panic || b in old(lh) ==> lh == old(lh) && bc.c == old(bc.c)
      ensures !panic && b !in old(lh) ==>
        lh == old(lh) + [b] && bc.c == old(bc.c).(refs := old(bc.c).refs[b := old(bc.c).refs[b] + 1])
    {
      if |lh| >= LOGSIZE || |lh| >= g.size - 1 { return true; }
      if outstanding < 1 { return true; }
      var k := 0;
      while k < |lh| && lh[k] != b
        invariant 0 <= k <= |lh| && b !in lh[..k]
      {
        k := k + 1;
      }
      if k == |lh| {
        assert lh[..k] == lh;
        bc.Bpin(i, b);
        lh := lh + [b];
      }
      panic := false;
    }
  }
}
