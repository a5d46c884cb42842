/** The on-disk redo log (kernel/log.c): a header block naming home blocks, followed by
    one log block for each of them. The functions of this module give the disk after any
    number of single-block writes of a commit or of a recovery; a crash is the choice of
    how many of those writes happened. */
module LogDisk {
  const LOGSIZE: nat := 30
  const WORDS: nat := 256  // BSIZE / sizeof(int)

  /** One disk block, seen as an array of words. */
  type Block = b: seq<nat> | |b| == WORDS witness seq(WORDS, _ => 0)
  type Disk = seq<Block>

  /** log.start and log.size: the header block is `start`, the log blocks follow it. */
  datatype Geometry = Geometry(start: nat, size: nat)

  predicate InLog(g: Geometry, b: nat) {
    g.start <= b < g.start + g.size
  }

  ghost predicate Distinct(bs: seq<nat>) {
    forall i, j :: 0 <= i < j < |bs| ==> bs[i] != bs[j]
  }

  /** What log_write keeps true of log.lh.block[0..n): distinct home blocks that fit the log. */
  ghost predicate Loggable(g: Geometry, len: nat, bs: seq<nat>) {
    && g.start + g.size <= len
    && |bs| <= LOGSIZE
    && |bs| < g.size
    && Distinct(bs)
    && forall i :: 0 <= i < |bs| ==> bs[i] < len && !InLog(g, bs[i])
  }

  /** The header block with `bs` stored by write_head: words past the n-th entry keep their old value. */
  function WithHeader(b: Block, bs: seq<nat>): (r: Block)
    requires |bs| <= LOGSIZE
    ensures r[0] == |bs| && r[1..1 + |bs|] == bs
  {
    [|bs|] + bs + b[1 + |bs|..]
  }

  ghost predicate HeaderOk(g: Geometry, d: Disk) {
    && g.start < |d|
    && d[g.start][0] <= LOGSIZE
    && Loggable(g, |d|, d[g.start][1..1 + d[g.start][0]])
  }

  /** The block list that read_head finds. */
  ghost function Logged(g: Geometry, d: Disk): (bs: seq<nat>)
    requires HeaderOk(g, d)
    ensures Loggable(g, |d|, bs)
  {
    d[g.start][1..1 + d[g.start][0]]
  }

  function Headed(g: Geometry, d: Disk, bs: seq<nat>): (r: Disk)
    requires g.start < |d| && |bs| <= LOGSIZE
    ensures |r| == |d|
  {
    d[g.start := WithHeader(d[g.start], bs)]
  }

  /** The disk after write_log wrote its first k log blocks. */
  function Appended(g: Geometry, d: Disk, vals: seq<Block>, k: nat): (r: Disk)
    requires k <= |vals| && g.start + |vals| < |d|
    ensures |r| == |d|
  {
    if k == 0 then d else Appended(g, d, vals, k - 1)[g.start + k := vals[k - 1]]
  }

  /** The disk after install_trans copied its first k log blocks home. */
  function Installed(g: Geometry, d: Disk, bs: seq<nat>, k: nat): (r: Disk)
    requires k <= |bs| && g.start + |bs| < |d|
    requires forall i :: 0 <= i < |bs| ==> bs[i] < |d|
    ensures |r| == |d|
  {
    if k == 0 then d
    else
      var p := Installed(g, d, bs, k - 1);
      p[bs[k - 1] := p[g.start + k]]
  }

  /** The disk after the first k block writes of commit(): n log blocks, the header,
      n home blocks, the cleared header. */
  ghost function CommitDisk(g: Geometry, d: Disk, bs: seq<nat>, vals: seq<Block>, k: nat): (r: Disk)
    requires Loggable(g, |d|, bs) && |vals| == |bs| && k <= 2 * |bs| + 2
    ensures |r| == |d|
  {
    if k == 0 then d
    else
      var n := |bs|;
      var c := CommitDisk(g, d, bs, vals, k - 1);
      if k <= n then c[g.start + k := vals[k - 1]]
      else if k == n + 1 then Headed(g, c, bs)
      else if k <= 2 * n + 1 then c[bs[k - n - 2] := c[g.start + 1 + (k - n - 2)]]
      else Headed(g, c, [])
  }

  /** The disk after the first k block writes of recover_from_log(). */
  ghost function RecoverDisk(g: Geometry, d: Disk, k: nat): (r: Disk)
    requires HeaderOk(g, d) && k <= |Logged(g, d)| + 1
    ensures |r| == |d|
  {
    var bs := Logged(g, d);
    if k <= |bs| then Installed(g, d, bs, k) else Headed(g, Installed(g, d, bs, |bs|), [])
  }

  /** The disk that a recovery running to its end leaves. */
  ghost function Recovered(g: Geometry, d: Disk): (r: Disk)
    requires HeaderOk(g, d)
    ensures |r| == |d|
  {
    RecoverDisk(g, d, |Logged(g, d)| + 1)
  }

  ghost predicate SameHome(g: Geometry, d: Disk, e: Disk) {
    |d| == |e| && forall b :: 0 <= b < |d| && !InLog(g, b) ==> d[b] == e[b]
  }

  /** `d` with every block of `bs` at its value in `vals` (home blocks only). */
  ghost predicate Updated(g: Geometry, d: Disk, bs: seq<nat>, vals: seq<Block>, e: Disk)
    requires |bs| == |vals| && forall i :: 0 <= i < |bs| ==> bs[i] < |d|
  {
    && |e| == |d|
    && (forall i :: 0 <= i < |bs| ==> e[bs[i]] == vals[i])
    && forall b :: 0 <= b < |d| && !InLog(g, b) && b !in bs ==> e[b] == d[b]
  }

  lemma {:induction false} AppendedAt(g: Geometry, d: Disk, vals: seq<Block>, k: nat)
    requires k <= |vals| && g.start + |vals| < |d|
    ensures forall b :: 0 <= b < |d| ==>
      Appended(g, d, vals, k)[b] == (if g.start < b <= g.start + k then vals[b - g.start - 1] else d[b])
  {
    if k == 0 {
    } else {
      AppendedAt(g, d, vals, k - 1);
    }
  }

  /** install_trans touches only the blocks it names. */
  lemma {:induction false} InstalledElsewhere(g: Geometry, d: Disk, bs: seq<nat>, k: nat, b: nat)
    requires Loggable(g, |d|, bs) && k <= |bs| && b < |d| && b !in bs[..k]
    ensures Installed(g, d, bs, k)[b] == d[b]
  {
    if k == 0 {
    } else {
      assert bs[..k] == bs[..k - 1] + [bs[k - 1]];
      InstalledElsewhere(g, d, bs, k - 1, b);
    }
  }

  lemma {:induction false} InstalledHome(g: Geometry, d: Disk, bs: seq<nat>, k: nat, i: nat)
    requires Loggable(g, |d|, bs) && i < k <= |bs|
    ensures Installed(g, d, bs, k)[bs[i]] == d[g.start + 1 + i]
  {
    if i == k - 1 {
      assert InLog(g, g.start + k);
      InstalledElsewhere(g, d, bs, k - 1, g.start + k);
    } else {
      InstalledHome(g, d, bs, k - 1, i);
    }
  }

  lemma InstalledAt(g: Geometry, d: Disk, bs: seq<nat>, k: nat)
    requires Loggable(g, |d|, bs) && k <= |bs|
    ensures forall i :: 0 <= i < k ==> Installed(g, d, bs, k)[bs[i]] == d[g.start + 1 + i]
    ensures forall b :: 0 <= b < |d| && b !in bs[..k] ==> Installed(g, d, bs, k)[b] == d[b]
  {
    forall i | 0 <= i < k { InstalledHome(g, d, bs, k, i); }
    forall b | 0 <= b < |d| && b !in bs[..k] { InstalledElsewhere(g, d, bs, k, b); }
  }

  /** The home contents that a completed recovery leaves, block by block. */
  lemma RecoveredAt(g: Geometry, d: Disk)
    requires HeaderOk(g, d)
    ensures var bs := Logged(g, d);
      && HeaderOk(g, Recovered(g, d)) && Logged(g, Recovered(g, d)) == []
      && (forall i :: 0 <= i < |bs| ==> Recovered(g, d)[bs[i]] == d[g.start + 1 + i])
      && forall b :: 0 <= b < |d| && !InLog(g, b) && b !in bs ==> Recovered(g, d)[b] == d[b]
  {
    var bs := Logged(g, d);
    InstalledAt(g, d, bs, |bs|);
    assert bs[..|bs|] == bs;
  }

  /** A crash after any k writes of a recovery does not change what the next completed recovery yields. */
  lemma RecoverStep(g: Geometry, d: Disk, k: nat)
    requires HeaderOk(g, d) && k <= |Logged(g, d)| + 1
    ensures HeaderOk(g, RecoverDisk(g, d, k))
    ensures SameHome(g, Recovered(g, RecoverDisk(g, d, k)), Recovered(g, d))
    ensures k == |Logged(g, d)| + 1 ==> Logged(g, RecoverDisk(g, d, k)) == []
  {
    var bs := Logged(g, d);
    RecoveredAt(g, d);
    var e := RecoverDisk(g, d, k);
    if k <= |bs| {
      InstalledAt(g, d, bs, k);
      assert InLog(g, g.start);
      assert Logged(g, e) == bs;
      RecoveredAt(g, e);
      forall b | 0 <= b < |d| && !InLog(g, b)
        ensures Recovered(g, e)[b] == Recovered(g, d)[b]
      {
        if i :| 0 <= i < |bs| && bs[i] == b {
          assert InLog(g, g.start + 1 + i);
        }
      }
    } else {
      RecoveredAt(g, e);
    }
  }

  /** `d` after a chain of recoveries, the i-th one crashing after ks[i] block writes. */
  ghost predicate Chain(g: Geometry, d: Disk, ks: seq<nat>, e: Disk)
    decreases |ks|
  {
    HeaderOk(g, d) &&
    if ks == [] then e == d
    else ks[0] <= |Logged(g, d)| + 1 && Chain(g, RecoverDisk(g, d, ks[0]), ks[1..], e)
  }

  lemma {:induction false} ChainKeepsRecovered(g: Geometry, d: Disk, ks: seq<nat>, e: Disk)
    requires Chain(g, d, ks, e)
    ensures HeaderOk(g, e) && SameHome(g, Recovered(g, e), Recovered(g, d))
    decreases |ks|
  {
    if ks == [] {
    } else {
      RecoverStep(g, d, ks[0]);
      ChainKeepsRecovered(g, RecoverDisk(g, d, ks[0]), ks[1..], e);
    }
  }

  /** Before the header write a recovery still finds an empty log. */
  lemma BeforeHeader(g: Geometry, d: Disk, vals: seq<Block>, k: nat)
    requires HeaderOk(g, d) && Logged(g, d) == []
    requires k <= |vals| < g.size
    ensures HeaderOk(g, Appended(g, d, vals, k))
    ensures SameHome(g, Recovered(g, Appended(g, d, vals, k)), d)
  {
    AppendedAt(g, d, vals, k);
    RecoveredAt(g, Appended(g, d, vals, k));
  }

  /** read_head undoes write_head. */
  lemma HeadedRoundTrip(g: Geometry, d: Disk, bs: seq<nat>)
    requires Loggable(g, |d|, bs)
    ensures HeaderOk(g, Headed(g, d, bs)) && Logged(g, Headed(g, d, bs)) == bs
  {
    assert Headed(g, d, bs)[g.start] == WithHeader(d[g.start], bs);
  }

  /** Right after the header write a recovery installs the whole transaction. */
  lemma AtHeader(g: Geometry, d: Disk, bs: seq<nat>, vals: seq<Block>)
    requires Loggable(g, |d|, bs) && |vals| == |bs|
    ensures HeaderOk(g, Headed(g, Appended(g, d, vals, |bs|), bs))
    ensures Logged(g, Headed(g, Appended(g, d, vals, |bs|), bs)) == bs
    ensures Updated(g, d, bs, vals, Recovered(g, Headed(g, Appended(g, d, vals, |bs|), bs)))
  {
    var a := Appended(g, d, vals, |bs|);
    AppendedAt(g, d, vals, |bs|);
    HeadedRoundTrip(g, a, bs);
    RecoveredAt(g, Headed(g, a, bs));
    forall b | 0 <= b < |d| && !InLog(g, b)
      ensures Headed(g, a, bs)[b] == d[b]
    {
    }
  }

  lemma UpdatedHome(g: Geometry, d: Disk, bs: seq<nat>, vals: seq<Block>, e: Disk, f: Disk)
    requires Loggable(g, |d|, bs) && |vals| == |bs|
    requires Updated(g, d, bs, vals, e) && SameHome(g, f, e)
    ensures Updated(g, d, bs, vals, f)
  {
  }

  lemma {:induction false} CommitIsAppend(g: Geometry, d: Disk, bs: seq<nat>, vals: seq<Block>, k: nat)
    requires Loggable(g, |d|, bs) && |vals| == |bs| && k <= |bs|
    ensures CommitDisk(g, d, bs, vals, k) == Appended(g, d, vals, k)
  {
    if k == 0 {
    } else {
      CommitIsAppend(g, d, bs, vals, k - 1);
    }
  }

  /** From the header write on, a commit goes through the disks of a recovery. */
  lemma {:induction false} CommitIsRecovery(g: Geometry, d: Disk, bs: seq<nat>, vals: seq<Block>, k: nat)
    requires Loggable(g, |d|, bs) && |vals| == |bs| && k <= |bs| + 1
    ensures var c := Headed(g, Appended(g, d, vals, |bs|), bs);
      CommitDisk(g, d, bs, vals, |bs| + 1 + k)
        == if k <= |bs| then Installed(g, c, bs, k) else Headed(g, Installed(g, c, bs, |bs|), [])
  {
    if k == 0 { CommitIsAppend(g, d, bs, vals, |bs|); } else { CommitIsRecovery(g, d, bs, vals, k - 1); }
  }

  lemma AfterHeader(g: Geometry, d: Disk, bs: seq<nat>, vals: seq<Block>, k: nat)
    requires Loggable(g, |d|, bs) && |vals| == |bs| && k <= |bs| + 1
    ensures HeaderOk(g, CommitDisk(g, d, bs, vals, |bs| + 1 + k))
    ensures Updated(g, d, bs, vals, Recovered(g, CommitDisk(g, d, bs, vals, |bs| + 1 + k)))
  {
    AtHeader(g, d, bs, vals);
    CommitIsRecovery(g, d, bs, vals, k);
    var c := Headed(g, Appended(g, d, vals, |bs|), bs);
    RecoverStep(g, c, k);
    UpdatedHome(g, d, bs, vals, Recovered(g, c), Recovered(g, RecoverDisk(g, c, k)));
  }

  /** What a recovery yields after k writes of a commit: the old home blocks before the header
      write, the new ones from the header write on. */
  lemma CommitStep(g: Geometry, d: Disk, bs: seq<nat>, vals: seq<Block>, k: nat)
    requires HeaderOk(g, d) && Logged(g, d) == []
    requires Loggable(g, |d|, bs) && |vals| == |bs| && k <= 2 * |bs| + 2
    ensures HeaderOk(g, CommitDisk(g, d, bs, vals, k))
    ensures k <= |bs| ==> SameHome(g, Recovered(g, CommitDisk(g, d, bs, vals, k)), d)
    ensures k > |bs| ==> Updated(g, d, bs, vals, Recovered(g, CommitDisk(g, d, bs, vals, k)))
  {
    if k <= |bs| {
      CommitIsAppend(g, d, bs, vals, k);
      BeforeHeader(g, d, vals, k);
    } else {
      AfterHeader(g, d, bs, vals, k - |bs| - 1);
    }
  }

  /** Crash atomicity: a crash after any single block write of a commit, followed by any number of
      recoveries that themselves crash anywhere and then one that completes, leaves either every
      home block as before the commit or every logged block new and all others as before. */
  lemma CrashAtomic(g: Geometry, d: Disk, bs: seq<nat>, vals: seq<Block>, k: nat, ks: seq<nat>, e: Disk)
    requires HeaderOk(g, d) && Logged(g, d) == []
    requires Loggable(g, |d|, bs) && |vals| == |bs| && k <= 2 * |bs| + 2
    requires Chain(g, CommitDisk(g, d, bs, vals, k), ks, e)
    ensures HeaderOk(g, e) && Logged(g, Recovered(g, e)) == []
    ensures if k <= |bs| then SameHome(g, Recovered(g, e), d) else Updated(g, d, bs, vals, Recovered(g, e))
  {
    CommitStep(g, d, bs, vals, k);
    ChainKeepsRecovered(g, CommitDisk(g, d, bs, vals, k), ks, e);
    RecoveredAt(g, e);
  }

  /** From the header write until the log is cleared, the log blocks hold the transaction. */
  lemma LogHolds(g: Geometry, d: Disk, bs: seq<nat>, vals: seq<Block>, k: nat, i: nat)
    requires Loggable(g, |d|, bs) && |vals| == |bs| && |bs| < k < 2 * |bs| + 2 && i < |bs|
    ensures CommitDisk(g, d, bs, vals, k)[g.start + 1 + i] == vals[i]
  {
    CommitIsRecovery(g, d, bs, vals, k - |bs| - 1);
    AppendedAt(g, d, vals, |bs|);
    var c := Headed(g, Appended(g, d, vals, |bs|), bs);
    assert InLog(g, g.start + 1 + i) && c[g.start + 1 + i] == vals[i];
    assert g.start + 1 + i !in bs[..if k - |bs| - 1 <= |bs| then k - |bs| - 1 else |bs|];
    InstalledElsewhere(g, c, bs, k - |bs| - 1, g.start + 1 + i);
  }

  lemma CommitInstallStep(g: Geometry, d: Disk, bs: seq<nat>, vals: seq<Block>, k: nat, i: nat)
    requires Loggable(g, |d|, bs) && |vals| == |bs| && i < |bs| && k == |bs| + 1 + i
    ensures var c := CommitDisk(g, d, bs, vals, k);
      CommitDisk(g, d, bs, vals, k + 1) == c[bs[i] := c[g.start + i + 1]]
  {
  }

  /** An installed home block keeps its new contents for the rest of the commit. */
  lemma {:induction false} CommitHome(g: Geometry, d: Disk, bs: seq<nat>, vals: seq<Block>, k: nat, i: nat)
    requires Loggable(g, |d|, bs) && |vals| == |bs| && i < |bs| && |bs| + 2 + i <= k <= 2 * |bs| + 1
    ensures CommitDisk(g, d, bs, vals, k)[bs[i]] == vals[i]
  {
    var j := k - |bs| - 2;
    CommitInstallStep(g, d, bs, vals, k - 1, j);
    if i == j {
      LogHolds(g, d, bs, vals, k - 1, i);
    } else {
      CommitHome(g, d, bs, vals, k - 1, i);
    }
  }
}
