/** filewrite over the log (kernel/file.c, kernel/log.c): every chunk is one operation between begin_op and end_op, so
    a crash leaves a file with a whole number of chunks. */
module FileCrash {
  import opened Basics
  import opened LogDisk
  import F = FsFiles
  import L = LogSystem

  /** How many bytes of src n chunks hold. */
  function Upto(src: seq<Byte>, n: nat): nat { F.Min(|src|, F.CHUNK * n) }

  /** The beginning, or the end of an operation that left no other running. */
  ghost predicate Quiet(ss: seq<L.Sys>, sts: seq<L.Step>, q: nat) {
    |ss| == |sts| + 1 && q <= |sts| && (q == 0 || (sts[q - 1].End? && ss[q].ops == map[]))
  }

  /** What the file is at the quiet moments of a run, as FsFiles.WriteChunk makes it: `view` reads its content off the
      home blocks, and from one quiet moment p to the next one q some chunks more, done[q] in all, are laid over it. */
  ghost predicate Chunked(ss: seq<L.Sys>, sts: seq<L.Step>, k: nat, view: Disk -> seq<Byte>, off: nat, src: seq<Byte>,
    done: seq<nat>)
    requires |ss| == |sts| + 1 && k <= |sts|
  {
    && |done| == |ss| && done[0] == 0
    && forall q: nat :: 0 < q <= k && Quiet(ss, sts, q) ==>
      ChunksLaid(ss, sts, view, off, src, done, L.LastEnd(ss, sts, q - 1), q)
  }

  /** The bytes a to b of src are laid over the content c, behind those before a. */
  ghost predicate More(c: seq<Byte>, off: nat, src: seq<Byte>, a: nat, b: nat, d: seq<Byte>) {
    a <= b <= |src| && off + a <= |c| && d == F.Splice(c, off + a, src[a..b])
  }

  ghost predicate ChunksLaid(ss: seq<L.Sys>, sts: seq<L.Step>, view: Disk -> seq<Byte>, off: nat, src: seq<Byte>,
    done: seq<nat>, p: nat, q: nat)
    requires |ss| == |sts| + 1 == |done| && p <= q <= |sts|
  {
    && done[p] <= done[q]
    && More(view(L.Logical(ss, sts, p)), off, src, Upto(src, done[p]), Upto(src, done[q]), view(L.Logical(ss, sts, q)))
  }

  lemma LastEndIsQuiet(ss: seq<L.Sys>, sts: seq<L.Step>, k: nat)
    requires |ss| == |sts| + 1 && k <= |sts|
    ensures Quiet(ss, sts, L.LastEnd(ss, sts, k))
  {
  }

  lemma {:induction false} CommitPointIsQuiet(ss: seq<L.Sys>, sts: seq<L.Step>, k: nat)
    requires |ss| == |sts| + 1 && k <= |sts|
    ensures Quiet(ss, sts, L.CommitPoint(ss, sts, k))
  {
    if k == 0 {
    } else if sts[k - 1].WriteHead? {
      LastEndIsQuiet(ss, sts, k - 1);
    } else {
      CommitPointIsQuiet(ss, sts, k - 1);
    }
  }

  /** At every quiet moment the file is the old one with a whole number of chunks laid over it. */
  lemma {:induction false} WholeChunks(ss: seq<L.Sys>, sts: seq<L.Step>, k: nat, view: Disk -> seq<Byte>, off: nat,
    src: seq<Byte>, done: seq<nat>, q: nat)
    requires |ss| == |sts| + 1 && q <= k <= |sts| && Chunked(ss, sts, k, view, off, src, done) && Quiet(ss, sts, q)
    requires off <= |view(ss[0].j.disk)|
    ensures view(L.Logical(ss, sts, q)) == F.Splice(view(ss[0].j.disk), off, src[..Upto(src, done[q])])
    decreases q
  {
    if q == 0 {
      LaidNone(view(ss[0].j.disk), off, src);
    } else {
      var p := L.LastEnd(ss, sts, q - 1);
      LastEndIsQuiet(ss, sts, q - 1);
      WholeChunks(ss, sts, k, view, off, src, done, p);
      UptoMore(src, done[p], done[q]);
      LaidFurther(view(ss[0].j.disk), off, src, Upto(src, done[p]), Upto(src, done[q]));
    }
  }

  lemma UptoMore(src: seq<Byte>, m: nat, n: nat)
    ensures Upto(src, 0) == 0 && Upto(src, n) <= |src| && (m <= n ==> Upto(src, m) <= Upto(src, n))
  {
  }

  lemma LaidNone(c: seq<Byte>, off: nat, src: seq<Byte>)
    requires off <= |c|
    ensures F.Splice(c, off, src[..Upto(src, 0)]) == c
  {
    assert src[..0] == [] && F.Splice(c, off, []) == c;
  }

  lemma LaidFurther(c: seq<Byte>, off: nat, src: seq<Byte>, a: nat, b: nat)
    requires off <= |c| && a <= b <= |src|
    ensures F.Splice(F.Splice(c, off, src[..a]), off + a, src[a..b]) == F.Splice(c, off, src[..b])
  {
    F.SpliceTwice(c, off, src[..a], src[a..b]);
    assert src[..a] + src[a..b] == src[..b];
  }

  /** A crash after any k steps of a run, any number of interrupted recoveries and a completed one leave the file as the
      old one with the chunks laid over it that were done when the last committed operations had ended. */
  lemma ChunksSurvive(ss: seq<L.Sys>, sts: seq<L.Step>, k: nat, ks: seq<nat>, e: Disk, view: Disk -> seq<Byte>,
    off: nat, src: seq<Byte>, done: seq<nat>)
    requires L.Run(ss, sts) && k <= |sts| && Chain(ss[0].j.g, ss[k].j.disk, ks, e)
    requires Chunked(ss, sts, k, view, off, src, done) && off <= |view(ss[0].j.disk)|
    requires forall i :: 0 <= i < k ==> !sts[i].Crash?
    requires forall a: Disk, b: Disk :: SameHome(ss[0].j.g, a, b) ==> view(a) == view(b)
    ensures HeaderOk(ss[0].j.g, e)
    ensures view(Recovered(ss[0].j.g, e))
         == F.Splice(view(ss[0].j.disk), off, src[..Upto(src, done[L.CommitPoint(ss, sts, k)])])
  {
    L.CrashKeepsOperations(ss, sts, k, ks, e);
    CommitPointIsQuiet(ss, sts, k);
    WholeChunks(ss, sts, k, view, off, src, done, L.CommitPoint(ss, sts, k));
  }
}
