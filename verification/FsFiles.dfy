/** Files as byte sequences (kernel/fs.c readi and writei, kernel/file.c filewrite). User copies succeed. */
module FsFiles {
  import opened Basics
  import Admission
  import opened FsCodec
  import opened FsBlocks

  const CHUNK: nat := 3 * BSIZE  // ((MAXOPBLOCKS-1-1-2) / 2) * BSIZE

  function ByteAt(fs: Fs, ino: nat, i: nat): Byte {
    var b := Lookup(fs, ino, i / BSIZE);
    if b == 0 || b >= |fs.disk| then 0 else fs.disk[b][i % BSIZE]
  }

  /** The file as the bytes it holds. */
  function Content(fs: Fs, ino: nat): (r: seq<Byte>)
    requires ino in fs.inodes
    ensures |r| == fs.inodes[ino].size && forall i :: 0 <= i < |r| ==> r[i] == ByteAt(fs, ino, i)
  {
    seq(fs.inodes[ino].size, i requires 0 <= i => ByteAt(fs, ino, i))
  }

  predicate Mapping(fs: Fs, ino: nat, i: nat) { Lookup(fs, ino, i / BSIZE) != 0 }

  /** Every byte below the size is in a mapped block. */
  ghost predicate FileOk(fs: Fs, ino: nat)
    requires ino in fs.inodes
  {
    && fs.inodes[ino].size <= MAXFILE * BSIZE
    && forall i: nat :: i < fs.inodes[ino].size ==> Mapping(fs, ino, i)
  }

  ghost predicate FilesOk(fs: Fs) { forall m: nat :: m in fs.inodes ==> FileOk(fs, m) }

  function Min(a: nat, b: nat): nat { if a < b then a else b }

  // ---------------------------------------------------------------- readi

  lemma SliceIsContent(fs: Fs, ino: nat, off: nat, m: nat)
    requires ino in fs.inodes && off + m <= fs.inodes[ino].size && off % BSIZE + m <= BSIZE
    requires 0 < Lookup(fs, ino, off / BSIZE) < |fs.disk|
    ensures fs.disk[Lookup(fs, ino, off / BSIZE)][off % BSIZE..off % BSIZE + m] == Content(fs, ino)[off..off + m]
  {
    var b, at := Lookup(fs, ino, off / BSIZE), off % BSIZE;
    forall k | at <= k < at + m ensures fs.disk[b][k] == ByteAt(fs, ino, off - at + k) {
      assert (off - at + k) / BSIZE == off / BSIZE && (off - at + k) % BSIZE == k;
    }
  }

  /** One turn of the loop in readi: the bytes that the block at off has, at most `left` of them. */
  method ReadPiece(sb: Super, fs: Fs, ghost own: map<nat, Ref>, ino: nat, off: nat, left: nat)
    returns (piece: seq<Byte>, fs': Fs)
    requires FsOk(sb, fs, own) && ino in fs.inodes && FileOk(fs, ino) && 0 < left && off + left <= fs.inodes[ino].size
    ensures fs' == fs && 0 < |piece| <= left && piece == Content(fs, ino)[off..off + |piece|]
  {
    assert Mapping(fs, ino, off);
    var f, o, b, panic := Bmap(sb, fs, own, ino, off / BSIZE);
    fs' := f;
    var at := off % BSIZE;
    var m := Min(left, BSIZE - at);
    SliceIsContent(fs, ino, off, m);
    piece := fs'.disk[b][at..at + m];
  }

  /** readi: the exact slice, clipped at the size; it never allocates, so it leaves the file system as it is. */
  method Readi(sb: Super, fs: Fs, ghost own: map<nat, Ref>, ino: nat, off0: nat, n0: nat)
    returns (out: seq<Byte>, fs': Fs)
    requires FsOk(sb, fs, own) && ino in fs.inodes && FileOk(fs, ino) && off0 < WORD && n0 < WORD
    ensures fs' == fs
    ensures var c := Content(fs, ino);
      out == if off0 > |c| || off0 + n0 >= WORD then [] else c[off0..Min(off0 + n0, |c|)]
  {
    fs', out := fs, [];
    var size := fs.inodes[ino].size;
    if off0 > size || (off0 + n0) % WORD < off0 { return; }
    var n := if off0 + n0 > size then size - off0 else n0;
    ghost var c := Content(fs, ino);
    var off := off0;
    while |out| < n
      invariant |out| <= n && off == off0 + |out| && fs' == fs && out == c[off0..off]
      decreases n - |out|
    {
      var piece;
      piece, fs' := ReadPiece(sb, fs', own, ino, off, n - |out|);
      out := out + piece;
      off := off + |piece|;
    }
  }

  // ---------------------------------------------------------------- writei

  function Patch(b: Block, at: nat, x: seq<Byte>): Block
    requires at + |x| <= BSIZE
  {
    b[..at] + x + b[at + |x|..]
  }

  /** Writing into a data block that bmap returned: log_write of the patched block. */
  function Patched(fs: Fs, b: nat, at: nat, x: seq<Byte>): Fs
    requires b < |fs.disk| && at + |x| <= BSIZE
  {
    fs.(disk := fs.disk[b := Patch(fs.disk[b], at, x)], logged := fs.logged + {b})
  }

  /** Writing data moves no block number: the block written is not an indirect block. */
  lemma PatchKeeps(sb: Super, fs: Fs, own: map<nat, Ref>, b: nat, at: nat, x: seq<Byte>)
    requires FsOk(sb, fs, own) && b in own && !own[b].Ind? && b < |fs.disk| && at + |x| <= BSIZE
    ensures FsOk(sb, Patched(fs, b, at, x), own)
    ensures forall q: Ref :: Target(Patched(fs, b, at, x), q) == Target(fs, q)
  {
    var u := Patched(fs, b, at, x);
    assert BlockOk(sb, fs, own, b);
    forall q: Ref ensures Target(u, q) == Target(fs, q) && RefOk(u, own, q) {
      assert !Gone(q, -1, 0) && RefOk(fs, own, q);
      assert !Gone(Ind(q.ino), -1, 0) && RefOk(fs, own, Ind(q.ino));
    }
    forall c: nat ensures BlockOk(sb, u, own, c) { assert BlockOk(sb, fs, own, c); }
    forall c: nat | c < sb.size ensures MarkOk(sb, u, own, -1, c) {
      assert MarkOk(sb, fs, own, -1, c);
      MarkedAway(sb, fs.disk, b, Patch(fs.disk[b], at, x), c);
    }
  }

  /** Bytes of files that were mapped stay mapped, and stay the same outside [lo, hi) of file ino, where the
      file now holds its part of src, which starts at base. */
  ghost predicate Wrote(fs: Fs, fs': Fs, ino: nat, lo: nat, hi: nat, base: nat, src: seq<Byte>) {
    && (forall m: nat, i: nat :: Mapping(fs, m, i) ==> Mapping(fs', m, i))
    && (forall m: nat, i: nat :: Mapping(fs, m, i) && !(m == ino && lo <= i < hi) ==>
      ByteAt(fs', m, i) == ByteAt(fs, m, i))
    && (forall i: nat :: lo <= i < hi ==>
      Mapping(fs', ino, i) && 0 <= i - base < |src| && ByteAt(fs', ino, i) == src[i - base])
  }

  lemma WroteTwice(fs: Fs, u: Fs, w: Fs, ino: nat, lo: nat, mid: nat, hi: nat, base: nat, src: seq<Byte>)
    requires Wrote(fs, u, ino, lo, mid, base, src) && Wrote(u, w, ino, mid, hi, base, src) && lo <= mid <= hi
    ensures Wrote(fs, w, ino, lo, hi, base, src)
  {
    forall m: nat, i: nat | Mapping(fs, m, i) ensures Mapping(w, m, i) { assert Mapping(u, m, i); }
    forall m: nat, i: nat | Mapping(fs, m, i) && !(m == ino && lo <= i < hi)
      ensures ByteAt(w, m, i) == ByteAt(fs, m, i)
    {
      assert Mapping(u, m, i) && ByteAt(u, m, i) == ByteAt(fs, m, i);
    }
    forall i: nat | lo <= i < hi
      ensures Mapping(w, ino, i) && 0 <= i - base < |src| && ByteAt(w, ino, i) == src[i - base]
    {
      if i < mid { assert Mapping(u, ino, i) && ByteAt(u, ino, i) == src[i - base]; }
    }
  }

  /** bmap changes no byte of any file. */
  lemma MapWrites(sb: Super, fs: Fs, own: map<nat, Ref>, u: Fs, o: map<nat, Ref>, ino: nat, bn: nat)
    requires FsOk(sb, fs, own) && Mapped(sb, fs, own, u, o, ino, bn)
    ensures forall m: nat, i: nat :: Mapping(fs, m, i) ==> Mapping(u, m, i) && ByteAt(u, m, i) == ByteAt(fs, m, i)
  {
    forall m: nat, i: nat | Mapping(fs, m, i) ensures Mapping(u, m, i) && ByteAt(u, m, i) == ByteAt(fs, m, i) {
      var r := DataRef(m, i / BSIZE);
      assert !Gone(r, -1, 0) && RefOk(fs, own, r);
      assert Target(u, r) == Target(fs, r);
      assert BlockOk(sb, fs, own, Target(fs, r));
    }
  }

  lemma PatchWrites(sb: Super, u: Fs, o: map<nat, Ref>, ino: nat, off: nat, x: seq<Byte>, m: nat, i: nat)
    requires FsOk(sb, u, o) && 0 < Lookup(u, ino, off / BSIZE) < |u.disk| && off % BSIZE + |x| <= BSIZE
    ensures var w := Patched(u, Lookup(u, ino, off / BSIZE), off % BSIZE, x);
      Mapping(u, m, i) ==> Mapping(w, m, i) && ByteAt(w, m, i) == if m == ino &&
        off <= i < off + |x| then x[i - off] else ByteAt(u, m, i)
    ensures m == ino && off <= i < off + |x| ==> Mapping(u, m, i)
  {
    var r, q := DataRef(ino, off / BSIZE), DataRef(m, i / BSIZE);
    var b := Target(u, r);
    assert !Gone(r, -1, 0) && RefOk(u, o, r) && !Gone(q, -1, 0) && RefOk(u, o, q);
    PatchKeeps(sb, u, o, b, off % BSIZE, x);
    if m == ino && off <= i < off + |x| { assert i / BSIZE == off / BSIZE; }
    if q == r { assert m == ino && i / BSIZE == off / BSIZE; }
  }

  ghost predicate Extends(own: map<nat, Ref>, own': map<nat, Ref>) { forall c: nat :: c in own ==>
    c in own' && own'[c] == own[c] }

  /** As long as owners are only added, a block number once there stays. */
  lemma TargetStays(sb: Super, fs: Fs, own: map<nat, Ref>, fs': Fs, own': map<nat, Ref>, r: Ref)
    requires FsOk(sb, fs, own) && FsOk(sb, fs', own') && Extends(own, own') && Target(fs, r) != 0
    ensures Target(fs', r) == Target(fs, r)
  {
    assert !Gone(r, -1, 0) && RefOk(fs, own, r);
    assert BlockOk(sb, fs', own', Target(fs, r));
  }

  ghost predicate Piece(sb: Super, fs: Fs, own: map<nat, Ref>, fs': Fs, own': map<nat, Ref>, ino: nat, off: nat) {
    && FsOk(sb, fs', own') && Extends(own, own') && SameInodes(fs, fs', ino) && Mapping(fs', ino, off)
    && fs'.logged <= fs.logged + MapBlocks(sb, fs', ino, off / BSIZE)
  }

  lemma PieceWritten(sb: Super, fs: Fs, own: map<nat, Ref>, u: Fs, o: map<nat, Ref>, ino: nat, off: nat, base: nat,
    src: seq<Byte>, m: nat)
    requires FsOk(sb, fs, own) && Mapped(sb, fs, own, u, o, ino, off / BSIZE)
    requires base <= off && off + m <= base + |src| && off % BSIZE + m <= BSIZE
    ensures var w := Patched(u, Lookup(u, ino, off / BSIZE), off % BSIZE, src[off - base..off - base + m]);
      Piece(sb, fs, own, w, o, ino, off) && Wrote(fs, w, ino, off, off + m, base, src)
  {
    var b, x := Lookup(u, ino, off / BSIZE), src[off - base..off - base + m];
    var w := Patched(u, b, off % BSIZE, x);
    var r := DataRef(ino, off / BSIZE);
    assert !Gone(r, -1, 0) && RefOk(u, o, r);
    PatchKeeps(sb, u, o, b, off % BSIZE, x);
    assert MapBlocks(sb, w, ino, off / BSIZE) == MapBlocks(sb, u, ino, off / BSIZE);
    MapWrites(sb, fs, own, u, o, ino, off / BSIZE);
    forall k: nat, i: nat ensures
        && (Mapping(u, k, i) ==>
          Mapping(w, k, i) && ByteAt(w, k, i) == if k == ino && off <= i < off + m then x[i - off] else ByteAt(u, k, i))
        && (k == ino && off <= i < off + m ==> Mapping(u, k, i))
    {
      PatchWrites(sb, u, o, ino, off, x, k, i);
    }
  }

  /** One turn of the loop in writei: as much of src as fits into the block at off. */
  method WritePiece(sb: Super, fs: Fs, ghost own: map<nat, Ref>, ino: nat, off: nat, base: nat, src: seq<Byte>)
    returns (fs': Fs, ghost own': map<nat, Ref>, m: nat, panic: bool)
    requires FsOk(sb, fs, own) && ino in fs.inodes && base <= off < base + |src| <= MAXFILE * BSIZE
    ensures panic ==> Sized(sb, fs'.disk) && forall c: nat :: c < sb.size ==> Marked(sb, fs'.disk, c)
    ensures !panic ==> m == Min(base + |src| - off, BSIZE - off % BSIZE) && Wrote(fs, fs', ino, off, off + m, base, src)
    ensures !panic ==> Piece(sb, fs, own, fs', own', ino, off)
  {
    var u, o, b, full := Bmap(sb, fs, own, ino, off / BSIZE);
    if full { return u, o, 0, true; }
    m := Min(base + |src| - off, BSIZE - off % BSIZE);
    PieceWritten(sb, fs, own, u, o, ino, off, base, src, m);
    fs', own', panic := Patched(u, b, off % BSIZE, src[off - base..off - base + m]), o, false;
  }

  /** All blocks that mapping blocks first, ..., first + k - 1 of the file may log. */
  function AllBlocks(sb: Super, fs: Fs, ino: nat, first: nat, k: nat): set<nat> {
    if k == 0 then {} else AllBlocks(sb, fs, ino, first, k - 1) + MapBlocks(sb, fs, ino, first + k - 1)
  }

  ghost predicate AllMapped(fs: Fs, ino: nat, first: nat, k: nat) {
    forall bn: nat :: first <= bn < first + k ==> Lookup(fs, ino, bn) != 0
  }

  lemma SameMapBlocks(sb: Super, fs: Fs, fs': Fs, ino: nat, bn: nat)
    requires Lookup(fs', ino, bn) == Lookup(fs, ino, bn)
    requires bn >= NDIRECT ==> Target(fs', Ind(ino)) == Target(fs, Ind(ino))
    ensures MapBlocks(sb, fs', ino, bn) == MapBlocks(sb, fs, ino, bn)
  {
  }

  lemma {:induction false} AllBlocksStay(sb: Super, fs: Fs, own: map<nat, Ref>, fs': Fs, own': map<nat, Ref>,
    ino: nat, first: nat, k: nat)
    requires FsOk(sb, fs, own) && FsOk(sb, fs', own') && Extends(own, own') && AllMapped(fs, ino, first, k)
    ensures AllMapped(fs', ino, first, k) && AllBlocks(sb, fs', ino, first, k) == AllBlocks(sb, fs, ino, first, k)
  {
    if k == 0 {
    } else {
      AllBlocksStay(sb, fs, own, fs', own', ino, first, k - 1);
      var bn := first + k - 1;
      assert Lookup(fs, ino, bn) != 0;
      TargetStays(sb, fs, own, fs', own', DataRef(ino, bn));
      if bn >= NDIRECT { TargetStays(sb, fs, own, fs', own', Ind(ino)); }
      SameMapBlocks(sb, fs, fs', ino, bn);
    }
  }

  /** How many blocks the bytes [lo, hi) touch. */
  function Span(lo: nat, hi: nat): nat
    requires lo <= hi
  {
    if lo == hi then 0 else (hi - 1) / BSIZE - lo / BSIZE + 1
  }

  /** The next piece is the next block, and ends at the end or at a block boundary. */
  lemma SpanNext(lo: nat, off: nat, m: nat, end: nat)
    requires lo <= off < end && (off == lo || off % BSIZE == 0) && m == Min(end - off, BSIZE - off % BSIZE)
    ensures 0 < m && off % BSIZE + m <= BSIZE && (off + m == end || (off + m) % BSIZE == 0)
    ensures Span(lo, off + m) == Span(lo, off) + 1 && off / BSIZE == lo / BSIZE + Span(lo, off)
  {
    assert (off + m - 1) / BSIZE == off / BSIZE;
    if off > lo { assert (off - 1) / BSIZE == off / BSIZE - 1; }
  }

  /** writei has written the bytes [base, off), in the k blocks from first on. */
  ghost predicate Written(sb: Super, fs: Fs, own: map<nat, Ref>, f: Fs, o: map<nat, Ref>, ino: nat, first: nat,
    k: nat) {
    && FsOk(sb, f, o) && Extends(own, o) && SameInodes(fs, f, ino) && AllMapped(f, ino, first, k)
    && f.logged <= fs.logged + AllBlocks(sb, f, ino, first, k)
  }

  lemma WrittenMore(sb: Super, fs: Fs, own: map<nat, Ref>, f: Fs, o: map<nat, Ref>, w: Fs, ow: map<nat, Ref>,
    ino: nat, first: nat, k: nat, off: nat)
    requires Written(sb, fs, own, f, o, ino, first, k) && off / BSIZE == first + k && Piece(sb, f, o, w, ow, ino, off)
    ensures Written(sb, fs, own, w, ow, ino, first, k + 1)
  {
    AllBlocksStay(sb, f, o, w, ow, ino, first, k);
    assert Lookup(w, ino, first + k) != 0;
    assert AllBlocks(sb, w, ino, first, k + 1) == AllBlocks(sb, w, ino, first, k) + MapBlocks(sb, w, ino, first + k);
  }

  /** Where the loop of writei stands at off. */
  ghost predicate Upto(sb: Super, fs: Fs, own: map<nat, Ref>, f: Fs, o: map<nat, Ref>, ino: nat, base: nat, off: nat,
    src: seq<Byte>)
    requires base <= off
  {
    Written(sb, fs, own, f, o, ino, base / BSIZE, Span(base, off)) && Wrote(fs, f, ino, base, off, base, src)
  }

  lemma UptoMore(sb: Super, fs: Fs, own: map<nat, Ref>, f: Fs, o: map<nat, Ref>, w: Fs, ow: map<nat, Ref>,
                 ino: nat, base: nat, off: nat, m: nat, src: seq<Byte>)
    requires base <= off < base + |src| && (off == base || off % BSIZE == 0) &&
      m == Min(base + |src| - off, BSIZE - off % BSIZE)
    requires Upto(sb, fs, own, f, o, ino, base, off, src)
    requires Wrote(f, w, ino, off, off + m, base, src) && Piece(sb, f, o, w, ow, ino, off)
    ensures 0 < m && (off + m == base + |src| || (off + m) % BSIZE == 0) &&
      Upto(sb, fs, own, w, ow, ino, base, off + m, src)
  {
    SpanNext(base, off, m, base + |src|);
    WrittenMore(sb, fs, own, f, o, w, ow, ino, base / BSIZE, Span(base, off), off);
    WroteTwice(fs, f, w, ino, base, off, off + m, base, src);
  }

  lemma UptoStart(sb: Super, fs: Fs, own: map<nat, Ref>, ino: nat, base: nat, src: seq<Byte>)
    requires FsOk(sb, fs, own)
    ensures Upto(sb, fs, own, fs, own, ino, base, base, src)
  {
  }

  /** The loop of writei. */
  method WriteLoop(sb: Super, fs: Fs, ghost own: map<nat, Ref>, ino: nat, base: nat, src: seq<Byte>)
    returns (f: Fs, ghost o: map<nat, Ref>, panic: bool)
    requires FsOk(sb, fs, own) && ino in fs.inodes && base + |src| <= MAXFILE * BSIZE
    ensures panic ==> Sized(sb, f.disk) && forall c: nat :: c < sb.size ==> Marked(sb, f.disk, c)
    ensures !panic ==> Upto(sb, fs, own, f, o, ino, base, base + |src|, src)
  {
    f, o, panic := fs, own, false;
    var off, end := base, base + |src|;
    UptoStart(sb, fs, own, ino, base, src);
    while off < end
      invariant base <= off <= end && (off == base || off % BSIZE == 0 || off == end)
      invariant Upto(sb, fs, own, f, o, ino, base, off, src)
    {
      var w, ow, m, full := WritePiece(sb, f, o, ino, off, base, src);
      if full { return w, ow, true; }
      UptoMore(sb, fs, own, f, o, w, ow, ino, base, off, m, src);
      f, o := w, ow;
      off := off + m;
    }
  }

  /** The content with src laid over it at off. */
  function Splice(c: seq<Byte>, off: nat, src: seq<Byte>): (r: seq<Byte>)
    requires off <= |c|
    ensures |r| == Max(|c|, off + |src|)
    ensures forall i: nat :: i < |r| ==> r[i] == if off <= i < off + |src| then src[i - off] else c[i]
  {
    c[..off] + src + if off + |src| < |c| then c[off + |src|..] else []
  }

  function Max(a: nat, b: nat): nat { if a < b then b else a }

  lemma ResizedBytes(fs: Fs, ino: nat, size: nat, m: nat, i: nat)
    requires ino in fs.inodes
    ensures ByteAt(Resized(fs, ino, size), m, i) == ByteAt(fs, m, i) &&
      Mapping(Resized(fs, ino, size), m, i) == Mapping(fs, m, i)
  {
  }

  lemma WriteMaps(fs: Fs, f: Fs, ino: nat, base: nat, src: seq<Byte>, m: nat)
    requires ino in fs.inodes && m in fs.inodes && FileOk(fs, m) && base <= fs.inodes[ino].size &&
      base + |src| <= MAXFILE * BSIZE
    requires Wrote(fs, f, ino, base, base + |src|, base, src) && SameInodes(fs, f, ino)
    ensures FileOk(Resized(f, ino, Max(fs.inodes[ino].size, base + |src|)), m)
  {
    var size := Max(fs.inodes[ino].size, base + |src|);
    var w := Resized(f, ino, size);
    forall i: nat | i < w.inodes[m].size ensures Mapping(w, m, i) {
      ResizedBytes(f, ino, size, m, i);
      if i < fs.inodes[m].size { assert Mapping(fs, m, i); }
    }
  }

  lemma WriteContent(fs: Fs, f: Fs, ino: nat, base: nat, src: seq<Byte>, m: nat)
    requires ino in fs.inodes && m in fs.inodes && FileOk(fs, m) && base <= fs.inodes[ino].size
    requires Wrote(fs, f, ino, base, base + |src|, base, src) && SameInodes(fs, f, ino)
    ensures var w := Resized(f, ino, Max(fs.inodes[ino].size, base + |src|));
      Content(w, m) == if m == ino then Splice(Content(fs, ino), base, src) else Content(fs, m)
  {
    var size := Max(fs.inodes[ino].size, base + |src|);
    var w := Resized(f, ino, size);
    var want := if m == ino then Splice(Content(fs, ino), base, src) else Content(fs, m);
    forall i: nat | i < |want| ensures ByteAt(w, m, i) == want[i] {
      ResizedBytes(f, ino, size, m, i);
      if i < fs.inodes[m].size { assert Mapping(fs, m, i); }
    }
  }

  /** writei: -1 when off is past the end or the file would grow too large, else all of src is laid over the
      content at off; every other file keeps its content. The inode's block is logged too. A full disk is a panic. */
  method Writei(sb: Super, fs: Fs, ghost own: map<nat, Ref>, ino: nat, iblock: nat, off: nat, src: seq<Byte>)
    returns (f: Fs, ghost o: map<nat, Ref>, r: int, panic: bool)
    requires FsOk(sb, fs, own) && FilesOk(fs) && ino in fs.inodes && off < WORD && |src| < WORD
    ensures panic ==> Sized(sb, f.disk) && forall c: nat :: c < sb.size ==> Marked(sb, f.disk, c)
    ensures !panic ==> FsOk(sb, f, o) && FilesOk(f) && f.inodes.Keys == fs.inodes.Keys
    ensures !panic ==> r == if off > fs.inodes[ino].size || off + |src| > MAXFILE * BSIZE then -1 else |src|
    ensures !panic && r == -1 ==> f == fs
    ensures !panic && r != -1 ==> Content(f, ino) == Splice(Content(fs, ino), off, src)
    ensures !panic ==> forall m: nat :: m in fs.inodes && m != ino ==> Content(f, m) == Content(fs, m)
    ensures !panic ==> f.logged <= fs.logged + {iblock} + AllBlocks(sb, f, ino, off / BSIZE, Span(off, off + |src|))
  {
    f, o, r, panic := fs, own, -1, false;
    var size := fs.inodes[ino].size;
    assert FileOk(fs, ino);
    if off > size || (off + |src|) % WORD < off { return; }
    if off + |src| > MAXFILE * BSIZE { return; }
    f, o, panic := WriteLoop(sb, fs, own, ino, off, src);
    if panic { return; }
    forall m: nat | m in fs.inodes
      ensures var w := Resized(f, ino, Max(size, off + |src|));
        FileOk(w, m) && Content(w, m) == if m == ino then Splice(Content(fs, ino), off, src) else Content(fs, m)
    {
      assert FileOk(fs, m);
      WriteMaps(fs, f, ino, off, src, m);
      WriteContent(fs, f, ino, off, src, m);
    }
    f, o, r := Finish(sb, f, o, ino, iblock, Max(size, off + |src|), |src|, off / BSIZE, Span(off, off + |src|));
  }

  /** The end of writei: the size, and iupdate. */
  method Finish(sb: Super, fs: Fs, ghost own: map<nat, Ref>, ino: nat, iblock: nat, size: nat, n: nat,
    ghost first: nat, ghost k: nat)
    returns (f: Fs, ghost o: map<nat, Ref>, r: int)
    requires FsOk(sb, fs, own) && ino in fs.inodes
    ensures f == Resized(fs, ino, size).(logged := fs.logged + {iblock}) && o == own && FsOk(sb, f, o) && r == n
    ensures AllBlocks(sb, f, ino, first, k) == AllBlocks(sb, fs, ino, first, k)
    ensures forall m: nat, i: nat :: ByteAt(f, m, i) == ByteAt(Resized(fs, ino, size), m, i)
    ensures forall m: nat, i: nat :: Mapping(f, m, i) == Mapping(Resized(fs, ino, size), m, i)
  {
    f := Resized(fs, ino, size).(logged := fs.logged + {iblock});
    OwnershipKept(sb, fs, own, f);
    BlocksSame(sb, fs, f, ino, first, k);
    o, r := own, n;
  }

  lemma {:induction false} BlocksSame(sb: Super, fs: Fs, f: Fs, ino: nat, first: nat, k: nat)
    requires forall q: Ref :: Target(f, q) == Target(fs, q)
    ensures AllBlocks(sb, f, ino, first, k) == AllBlocks(sb, fs, ino, first, k)
  {
    if k == 0 {
    } else {
      BlocksSame(sb, fs, f, ino, first, k - 1);
    }
  }

  // ---------------------------------------------------------------- filewrite

  lemma {:induction false} SubsetSize(a: set<nat>, b: set<nat>)
    requires a <= b
    ensures |a| <= |b|
    decreases a
  {
    if x :| x in a { SubsetSize(a - {x}, b - {x}); }
  }

  function DataBlocks(fs: Fs, ino: nat, first: nat, k: nat): (r: set<nat>)
    ensures |r| <= k
  {
    if k == 0 then {} else DataBlocks(fs, ino, first, k - 1) + {Lookup(fs, ino, first + k - 1)}
  }

  lemma TargetInRange(sb: Super, fs: Fs, own: map<nat, Ref>, r: Ref)
    requires FsOk(sb, fs, own)
    ensures Target(fs, r) < sb.size
  {
    assert !Gone(r, -1, 0) && RefOk(fs, own, r);
    if Target(fs, r) != 0 { assert BlockOk(sb, fs, own, Target(fs, r)); }
  }

  lemma MapBlocksFew(sb: Super, fs: Fs, own: map<nat, Ref>, ino: nat, bn: nat)
    requires FsOk(sb, fs, own) && sb.size <= BPB
    ensures MapBlocks(sb, fs, ino, bn) <= {sb.bmapstart, Target(fs, Ind(ino)), Lookup(fs, ino, bn)}
  {
    TargetInRange(sb, fs, own, Ind(ino));
    TargetInRange(sb, fs, own, DataRef(ino, bn));
  }

  lemma {:induction false} FewBlocks(sb: Super, fs: Fs, ino: nat, first: nat, k: nat, few: set<nat>)
    requires forall bn: nat :: MapBlocks(sb, fs, ino, bn) <= few + {Lookup(fs, ino, bn)}
    ensures AllBlocks(sb, fs, ino, first, k) <= few + DataBlocks(fs, ino, first, k)
  {
    if k == 0 {
    } else {
      var bn := first + k - 1;
      FewBlocks(sb, fs, ino, first, k - 1, few);
      UnionStep(AllBlocks(sb, fs, ino, first, k - 1), MapBlocks(sb, fs, ino, bn), few,
        DataBlocks(fs, ino, first, k - 1), Lookup(fs, ino, bn));
    }
  }

  lemma UnionStep(a: set<nat>, b: set<nat>, few: set<nat>, d: set<nat>, z: nat)
    requires a <= few + d && b <= few + {z}
    ensures a + b <= few + (d + {z})
  {
  }

  ghost predicate Apart(fs: Fs, f: Fs, ino: nat) {
    f.inodes.Keys == fs.inodes.Keys && forall m: nat :: m in fs.inodes && m != ino ==> Content(f, m) == Content(fs, m)
  }

  lemma ApartTwice(fs: Fs, f: Fs, w: Fs, ino: nat)
    requires Apart(fs, f, ino) && Apart(f, w, ino)
    ensures Apart(fs, w, ino)
  {
  }

  predicate Fits(size: nat, off: nat, n: nat) { off <= size && off + n <= MAXFILE * BSIZE }

  /** One transaction of filewrite: begin_op, writei of at most CHUNK bytes, end_op. With one bitmap block it
      logs at most 7 distinct blocks, fewer than MAXOPBLOCKS. */
  method WriteChunk(sb: Super, fs: Fs, ghost own: map<nat, Ref>, ino: nat, iblock: nat, off: nat, src: seq<Byte>)
    returns (f: Fs, ghost o: map<nat, Ref>, r: int, panic: bool)
    requires FsOk(sb, fs, own) && FilesOk(fs) && ino in fs.inodes && off < WORD && |src| <= CHUNK
    ensures panic ==> Sized(sb, f.disk) && forall c: nat :: c < sb.size ==> Marked(sb, f.disk, c)
    ensures !panic ==> FsOk(sb, f, o) && FilesOk(f) && Apart(fs, f, ino)
    ensures !panic ==> r == if Fits(fs.inodes[ino].size, off, |src|) then |src| else -1
    ensures !panic ==> Content(f, ino) == if r == -1 then Content(fs, ino) else Splice(Content(fs, ino), off, src)
    ensures !panic && sb.size <= BPB ==> |f.logged| <= 7 <= Admission.MAXOPBLOCKS
  {
    var u := fs.(logged := {});
    OwnershipKept(sb, fs, own, u);
    SameFiles(fs, u);
    f, o, r, panic := Writei(sb, u, own, ino, iblock, off, src);
    if !panic && sb.size <= BPB {
      LoggedFew(sb, f, o, ino, iblock, off, src);
    }
  }

  lemma SameFiles(fs: Fs, u: Fs)
    requires FilesOk(fs) && u.inodes == fs.inodes && u.disk == fs.disk
    ensures FilesOk(u) && forall m: nat :: m in fs.inodes ==> Content(u, m) == Content(fs, m)
  {
    forall m: nat, i: nat ensures ByteAt(u, m, i) == ByteAt(fs, m, i) && Mapping(u, m, i) == Mapping(fs, m, i) {}
    forall m: nat | m in fs.inodes ensures FileOk(u, m) { assert FileOk(fs, m); }
  }

  lemma LoggedFew(sb: Super, f: Fs, o: map<nat, Ref>, ino: nat, iblock: nat, off: nat, src: seq<Byte>)
    requires FsOk(sb, f, o) && sb.size <= BPB && |src| <= CHUNK
    requires f.logged <= {} + {iblock} + AllBlocks(sb, f, ino, off / BSIZE, Span(off, off + |src|))
    ensures |f.logged| <= 7
  {
    var k := Span(off, off + |src|);
    assert k <= 4;
    var few, d := {sb.bmapstart, Target(f, Ind(ino))}, DataBlocks(f, ino, off / BSIZE, k);
    forall bn: nat ensures MapBlocks(sb, f, ino, bn) <= few + {Lookup(f, ino, bn)} {
      MapBlocksFew(sb, f, o, ino, bn);
    }
    FewBlocks(sb, f, ino, off / BSIZE, k, few);
    SubsetSize(f.logged, {iblock} + few + d);
    assert |{iblock} + few| <= 3 && |{iblock} + few + d| <= |{iblock} + few| + |d|;
  }

  lemma SpliceTwice(c: seq<Byte>, off: nat, a: seq<Byte>, b: seq<Byte>)
    requires off <= |c|
    ensures Splice(Splice(c, off, a), off + |a|, b) == Splice(c, off, a + b)
  {
  }

  /** i bytes of src have been laid over the content at off; nothing can be when off is past the end. */
  ghost predicate Laid(c: seq<Byte>, c': seq<Byte>, off: nat, src: seq<Byte>, i: int)
    requires 0 <= i <= |src|
  {
    if off <= |c| then c' == Splice(c, off, src[..i]) else i == 0 && c' == c
  }

  lemma LaidMore(c: seq<Byte>, c': seq<Byte>, off: nat, src: seq<Byte>, i: nat, n: nat)
    requires i + n <= |src| && Laid(c, c', off, src, i) && off + i <= |c'| && off <= |c|
    ensures Laid(c, Splice(c', off + i, src[i..i + n]), off, src, i + n)
  {
    SpliceTwice(c, off, src[..i], src[i..i + n]);
    assert src[..i] + src[i..i + n] == src[..i + n];
  }

  function Key(z: int): int { z }

  /** i bytes of src are in the file, and all is well. */
  ghost predicate InFile(sb: Super, fs: Fs, f: Fs, o: map<nat, Ref>, ino: nat, off: nat, src: seq<Byte>, i: nat) {
    && ino in fs.inodes && i <= |src| && FsOk(sb, f, o) && FilesOk(f) && Apart(fs, f, ino)
    && Laid(Content(fs, ino), Content(f, ino), off, src, i)
  }

  /** The same, kept folded until the key is named; and what is in fits. */
  ghost predicate Progress(sb: Super, fs: Fs, f: Fs, o: map<nat, Ref>, ino: nat, off: nat, src: seq<Byte>, i: nat)
    requires ino in fs.inodes
  {
    && (i > 0 ==> Fits(fs.inodes[ino].size, off, i))
    && forall z: int {:trigger Key(z)} :: z == 0 ==> InFile(sb, fs, f, o, ino, off, src, i)
  }

  /** A place between two chunks, or the end. */
  predicate Between(i: int, n: int) { i % CHUNK == 0 || i == n }

  lemma BetweenNext(i: nat, n: nat)
    requires Between(i, n) && i < n
    ensures Between(i + Min(n - i, CHUNK), n)
  {
  }

  /** One turn of the loop in filewrite: another chunk is in, or it is refused and nothing changes. */
  method FileTurn(sb: Super, ghost fs: Fs, f: Fs, ghost o: map<nat, Ref>, ino: nat, iblock: nat, off: nat,
    src: seq<Byte>, i: nat)
    returns (w: Fs, ghost ow: map<nat, Ref>, r: int, n1: nat, panic: bool)
    requires ino in fs.inodes && Progress(sb, fs, f, o, ino, off, src, i) && i < |src| && off < WORD &&
      Between(i, |src|)
    ensures panic ==> Sized(sb, w.disk) && forall c: nat :: c < sb.size ==> Marked(sb, w.disk, c)
    ensures n1 == Min(|src| - i, CHUNK)
    ensures !panic ==> r == if Fits(fs.inodes[ino].size, off, i + n1) then n1 else -1
    ensures !panic ==> Progress(sb, fs, w, ow, ino, off, src, if r == -1 then i else i + n1)
    ensures Between(i + n1, |src|)
  {
    assert Key(0) == 0;
    n1 := Min(|src| - i, CHUNK);
    BetweenNext(i, |src|);
    ghost var c, c1 := Content(fs, ino), Content(f, ino);
    assert off <= |c| ==> |c1| == Max(|c|, off + i);
    w, ow, r, panic := WriteChunk(sb, f, o, ino, iblock, off + i, src[i..i + n1]);
    if !panic {
      ApartTwice(fs, f, w, ino);
      if r != -1 { LaidMore(c, c1, off, src, i, n1); }
      assert InFile(sb, fs, w, ow, ino, off, src, if r == -1 then i else i + n1);
    }
  }

  lemma StartedOff(sb: Super, fs: Fs, own: map<nat, Ref>, ino: nat, off: nat, src: seq<Byte>)
    requires FsOk(sb, fs, own) && FilesOk(fs) && ino in fs.inodes
    ensures Progress(sb, fs, fs, own, ino, off, src, 0)
  {
    assert InFile(sb, fs, fs, own, ino, off, src, 0);
  }

  /** filewrite on an inode: the chunks together are one write. It returns n exactly when off is not past the
      end and all of src fits into a file; otherwise the chunks before the first refused one stay written. */
  method Filewrite(sb: Super, fs: Fs, ghost own: map<nat, Ref>, ino: nat, iblock: nat, off0: nat, src: seq<Byte>)
    returns (f: Fs, ghost o: map<nat, Ref>, off: nat, ret: int, panic: bool)
    requires FsOk(sb, fs, own) && FilesOk(fs) && ino in fs.inodes && off0 < WORD
    ensures panic ==> Sized(sb, f.disk) && forall c: nat :: c < sb.size ==> Marked(sb, f.disk, c)
    ensures !panic ==> ret == if |src| == 0 || Fits(fs.inodes[ino].size, off0, |src|) then |src| else -1
    ensures !panic ==> off0 <= off && Progress(sb, fs, f, o, ino, off0, src, off - off0)
    ensures !panic && ret == |src| ==> off == off0 + |src|
    ensures !panic && ret == -1 ==>
      Between(off - off0, |src|) && off < off0 + |src| &&
      !Fits(fs.inodes[ino].size, off0, Min(|src|, off - off0 + CHUNK))
  {
    f, o, off, panic := fs, own, off0, false;
    StartedOff(sb, fs, own, ino, off0, src);
    var i: nat := 0;
    while i < |src|
      invariant i <= |src| && off == off0 + i && Progress(sb, fs, f, o, ino, off0, src, i)
      invariant Between(i, |src|)
    {
      var r, n1;
      f, o, r, n1, panic := FileTurn(sb, fs, f, o, ino, iblock, off0, src, i);
      if panic { ret := -1; return; }
      if r > 0 { off := off + r; }
      if r != n1 { ret := -1; return; }
      i := i + r;
    }
    ret := |src|;
  }

  // ---------------------------------------------------------------- the file system as an object

  /** Truncating one file leaves every other file as it was. */
  lemma TruncApart(sb: Super, fs: Fs, own: map<nat, Ref>, f: Fs, n: nat)
    requires FsOk(sb, fs, own) && FilesOk(fs) && n in fs.inodes && SameData(sb, fs, f)
    requires f.inodes == fs.inodes[n := Inode(seq(NDIRECT + 1, _ => 0), 0)]
    ensures FilesOk(f) && Apart(fs, f, n) && Content(f, n) == []
  {
    forall m: nat, i: nat | m != n
      ensures ByteAt(f, m, i) == ByteAt(fs, m, i) && Mapping(f, m, i) == Mapping(fs, m, i) {
      TargetApart(sb, fs, own, f, n, DataRef(m, i / BSIZE));
    }
    forall m: nat | m in f.inodes ensures FileOk(f, m) { assert FileOk(fs, m); }
  }

  lemma TargetApart(sb: Super, fs: Fs, own: map<nat, Ref>, f: Fs, n: nat, r: Ref)
    requires FsOk(sb, fs, own) && n in fs.inodes && SameData(sb, fs, f) && r.ino != n
    requires f.inodes == fs.inodes[n := Inode(seq(NDIRECT + 1, _ => 0), 0)]
    ensures Target(f, r) == Target(fs, r)
    ensures Target(fs, r) != 0 ==> sb.datastart <= Target(fs, r) < |fs.disk|
  {
    assert !Gone(r, -1, 0) && RefOk(fs, own, r) && BlockOk(sb, fs, own, Target(fs, r));
    var a := Ind(r.ino);
    assert !Gone(a, -1, 0) && RefOk(fs, own, a) && BlockOk(sb, fs, own, Target(fs, a));
  }

  class FileSystem {
    const sb: Super
    var fs: Fs
    ghost var own: map<nat, Ref>

    ghost predicate Valid()
      reads this
    {
      FsOk(sb, fs, own) && FilesOk(fs)
    }

    constructor (sb: Super, fs: Fs, ghost own: map<nat, Ref>)
      requires FsOk(sb, fs, own) && FilesOk(fs)
      ensures Valid() && this.sb == sb && this.fs == fs
    {
      this.sb, this.fs, this.own := sb, fs, own;
    }

    /** readi. */
    method Read(ino: nat, off: nat, n: nat) returns (out: seq<Byte>)
      requires Valid() && ino in fs.inodes && off < WORD && n < WORD
      modifies this
      ensures Valid() && fs == old(fs)
      ensures var c := Content(fs, ino); out == if off > |c| || off + n >= WORD then [] else c[off..Min(off + n, |c|)]
    {
      assert FileOk(fs, ino);
      out, fs := Readi(sb, fs, own, ino, off, n);
    }

    /** filewrite at off; a panic stops the system. */
    method Write(ino: nat, iblock: nat, off: nat, src: seq<Byte>) returns (ret: int, off': nat, panic: bool)
      requires Valid() && ino in fs.inodes && off < WORD
      modifies this
      ensures !panic ==> Valid() && Apart(old(fs), fs, ino)
      ensures !panic ==> ret == if |src| == 0 || Fits(old(fs).inodes[ino].size, off, |src|) then |src| else -1
      ensures !panic && ret == |src| > 0 ==>
        off' == off + |src| && Content(fs, ino) == Splice(Content(old(fs), ino), off, src)
      ensures !panic && ret == -1 ==>
        && off <= off' < off + |src| && Between(off' - off, |src|)
        && !Fits(old(fs).inodes[ino].size, off, Min(|src|, off' - off + CHUNK))
        && Laid(Content(old(fs), ino), Content(fs, ino), off, src, off' - off)
    {
      var f, o, at, r, full := Filewrite(sb, fs, own, ino, iblock, off, src);
      fs, own, ret, off', panic := f, o, r, at, full;
      assert Key(0) == 0 && src[..|src|] == src;
    }

    /** itrunc. */
    method Truncate(ino: nat)
      requires Valid() && ino in fs.inodes
      modifies this
      ensures Valid() && Apart(old(fs), fs, ino) && Content(fs, ino) == []
      ensures forall c: nat :: c in own <==> c in old(own) && old(own)[c].ino != ino
    {
      var f, o := Itrunc(sb, fs, own, ino);
      TruncApart(sb, fs, own, f, ino);
      fs, own := f, o;
    }
  }
}
